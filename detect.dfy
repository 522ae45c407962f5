/**
 * Excursion detection for one shipment (convex/excursions/detect.ts): evaluate the
 * shipment's readings against its policy, store each violation that is not already
 * recorded near its start time, log it, queue its explanation, then queue a risk recompute.
 */
module Detect {
  import opened Wrappers
  import opened Types
  import opened Store
  import opened Seqs
  import opened Sorting
  import opened Engine
  import opened Audit

  /** Half-width of the de-duplication window, in milliseconds. */
  const WindowMs := 60000

  function ReadingTime(d: Doc<ReadingRow>): int { d.row.timestamp }

  /** The shipment's readings, oldest first (the `by_shipment_id_and_timestamp` index, ascending). */
  function ShipmentReadings(readings: seq<Doc<ReadingRow>>, shipment: Id): (r: seq<Doc<ReadingRow>>)
    ensures forall i :: 0 <= i < |r| ==> r[i].row.shipment == shipment
  {
    var mine := Filter(readings, (d: Doc<ReadingRow>) => d.row.shipment == shipment);
    SortByPermutes(mine, ReadingTime);
    var r := SortBy(mine, ReadingTime);
    assert forall i :: 0 <= i < |r| ==> r[i] in multiset(mine);
    r
  }

  /** The `{ timestamp, temperature }` list handed to the evaluator. */
  function ReadingList(docs: seq<Doc<ReadingRow>>): seq<Reading> {
    seq(|docs|, i requires 0 <= i < |docs| => Reading(docs[i].row.timestamp, docs[i].row.temperature))
  }

  /** The id of the first reading taken exactly at `t`, if any (`readings.find(...)?._id`). */
  function FindReadingAt(docs: seq<Doc<ReadingRow>>, t: int): (r: Option<Id>)
    ensures r.Some? ==> exists i :: 0 <= i < |docs| && docs[i].row.timestamp == t && docs[i].id == r.value
                                    && forall j :: 0 <= j < i ==> docs[j].row.timestamp != t
    ensures r.None? ==> forall i :: 0 <= i < |docs| ==> docs[i].row.timestamp != t
  {
    if docs == [] then None
    else if docs[0].row.timestamp == t then Some(docs[0].id)
    else
      var r := FindReadingAt(docs[1..], t);
      assert r.Some? ==> exists i :: 1 <= i < |docs| && docs[i].row.timestamp == t && docs[i].id == r.value
                                     && forall j :: 0 <= j < i ==> docs[j].row.timestamp != t
      by {
        if r.Some? {
          var i :| 0 <= i < |docs[1..]| && docs[1..][i].row.timestamp == t && docs[1..][i].id == r.value
                   && forall j :: 0 <= j < i ==> docs[1..][j].row.timestamp != t;
          assert docs[i + 1] == docs[1..][i];
          forall j | 0 <= j < i + 1 ensures docs[j].row.timestamp != t {
            if j > 0 { assert docs[j] == docs[1..][j - 1]; }
          }
        }
      }
      r
  }

  predicate InWindow(detectedAt: int, startTime: int) {
    startTime - WindowMs <= detectedAt <= startTime + WindowMs
  }

  /** The idempotency lookup: an excursion of the shipment whose `detectedAt` lies within the window of `startTime`. */
  predicate AlreadyDetected(excursions: seq<Doc<ExcursionRow>>, shipment: Id, startTime: int) {
    exists i :: 0 <= i < |excursions| && excursions[i].row.shipment == shipment && InWindow(excursions[i].row.detectedAt, startTime)
  }

  /** What a pass knows about the shipment it works on. */
  datatype Context = Context(shipment: Id, policyId: Id, facilityId: Id, readings: seq<Doc<ReadingRow>>, now: int)

  /** The tables a detection pass writes. */
  datatype Written = Written(excursions: seq<Doc<ExcursionRow>>, auditLogs: seq<Doc<AuditRow>>, tasks: seq<Task>, nextId: Id)

  const DetectedEvent := "excursion_detected"
  const DetectedAction := "Review and quarantine as per policy"

  function NewExcursion(v: Violation, c: Context): ExcursionRow {
    ExcursionRow(c.shipment, FindReadingAt(c.readings, v.startTime), v.startTime, Some(v.endTime), c.policyId,
                 v.ruleViolated, v.severity, v.durationMinutes, c.now, None)
  }

  function NewAuditEntry(v: Violation, c: Context): AuditRow {
    AuditRow(c.now, Some(c.shipment), Some(c.facilityId), DetectedEvent, Some(v.ruleViolated), Some(v.severity),
             Some(DetectedAction), Some(ExcursionDetails(v.temperature, v.durationMinutes, v.startTime, v.endTime)), None)
  }

  /** One iteration of the loop: skip the violation, or insert its excursion, its audit entry and its explanation task. */
  function Step(p: Written, v: Violation, c: Context): Written {
    if AlreadyDetected(p.excursions, c.shipment, v.startTime) then p
    else Written(p.excursions + [Doc(p.nextId, c.now, NewExcursion(v, c))],
              p.auditLogs + [Doc(p.nextId + 1, c.now, NewAuditEntry(v, c))],
              p.tasks + [ExplainAuditLog(p.nextId + 1, DetectedEvent, v.ruleViolated, v.severity)],
              p.nextId + 2)
  }

  /** The loop over the violations, in order. */
  function Loop(p: Written, vs: seq<Violation>, c: Context): Written {
    if vs == [] then p else Step(Loop(p, vs[..|vs| - 1], c), vs[|vs| - 1], c)
  }

  /**
   * The whole pass: a missing shipment or a missing or inactive policy changes nothing; an
   * evaluation that throws aborts the pass; otherwise the loop runs and one risk recompute is queued.
   */
  function Detection(policies: seq<Doc<PolicyRow>>, shipments: seq<Doc<ShipmentRow>>, readings: seq<Doc<ReadingRow>>,
                     start: Written, shipmentId: Id, now: int): Result<Written, string>
  {
    match Get(shipments, shipmentId)
    case None => Ok(start)
    case Some(shipment) =>
      match Get(policies, shipment.row.policyId)
      case None => Ok(start)
      case Some(policy) =>
        if !policy.row.active then Ok(start)
        else
          var docs := ShipmentReadings(readings, shipmentId);
          match Evaluate(ReadingList(docs), policy.row.rules, policy.row.policyType)
          case Err(e) => Err(e)
          case Ok(vs) =>
            var p := Loop(start, vs, Context(shipmentId, shipment.row.policyId, shipment.row.facilityId, docs, now));
            Ok(p.(tasks := p.tasks + [ComputeRisk(shipmentId)]))
  }

  /** One iteration: the lookup, then the excursion insert, the audit entry and the explanation task. */
  method InsertViolation(db: Db, v: Violation, c: Context)
    requires db.Valid()
    modifies db`excursions, db`auditLogs, db`tasks, db`nextId
    ensures db.Valid()
    ensures Written(db.excursions, db.auditLogs, db.tasks, db.nextId)
            == Step(Written(old(db.excursions), old(db.auditLogs), old(db.tasks), old(db.nextId)), v, c)
  {
    if AlreadyDetected(db.excursions, c.shipment, v.startTime) {
      return;
    }
    var _ := db.InsertExcursion(c.now, NewExcursion(v, c));
    var auditLogId := CreateAuditLog(db, c.now, NewAuditEntry(v, c));
    db.Schedule(ExplainAuditLog(auditLogId, DetectedEvent, v.ruleViolated, v.severity));
  }

  /** The loop over the violations, writing into the database. */
  method InsertViolations(db: Db, violations: seq<Violation>, c: Context)
    requires db.Valid()
    modifies db`excursions, db`auditLogs, db`tasks, db`nextId
    ensures db.Valid()
    ensures Written(db.excursions, db.auditLogs, db.tasks, db.nextId)
            == Loop(Written(old(db.excursions), old(db.auditLogs), old(db.tasks), old(db.nextId)), violations, c)
  {
    ghost var start := Written(db.excursions, db.auditLogs, db.tasks, db.nextId);
    var i := 0;
    while i < |violations|
      invariant 0 <= i <= |violations|
      invariant db.Valid()
      invariant Written(db.excursions, db.auditLogs, db.tasks, db.nextId) == Loop(start, violations[..i], c)
    {
      assert violations[..i + 1][..i] == violations[..i];
      InsertViolation(db, violations[i], c);
      i := i + 1;
    }
    assert violations[..i] == violations;
  }

  /** `runForShipment`. A thrown evaluation leaves every table as it was. */
  method RunForShipment(db: Db, shipmentId: Id, now: int) returns (outcome: Outcome<string>)
    requires db.Valid()
    modifies db`excursions, db`auditLogs, db`tasks, db`nextId
    ensures db.Valid()
    ensures var d := Detection(db.policies, db.shipments, db.readings,
                               Written(old(db.excursions), old(db.auditLogs), old(db.tasks), old(db.nextId)), shipmentId, now);
      match d
      case Ok(p) => outcome == Pass && Written(db.excursions, db.auditLogs, db.tasks, db.nextId) == p
      case Err(e) => outcome == Fail(e) && db.excursions == old(db.excursions) && db.auditLogs == old(db.auditLogs)
                     && db.tasks == old(db.tasks) && db.nextId == old(db.nextId)
  {
    var shipment := Get(db.shipments, shipmentId);
    if shipment.None? {
      return Pass;
    }
    var policy := Get(db.policies, shipment.value.row.policyId);
    if policy.None? || !policy.value.row.active {
      return Pass;
    }
    outcome := ActivePass(db, shipment.value, policy.value, now);
  }

  /** The pass for a shipment whose policy is active: evaluate, insert what is new, queue the risk recompute. */
  method ActivePass(db: Db, shipment: Doc<ShipmentRow>, policy: Doc<PolicyRow>, now: int) returns (outcome: Outcome<string>)
    requires db.Valid()
    modifies db`excursions, db`auditLogs, db`tasks, db`nextId
    ensures db.Valid()
    ensures var start := Written(old(db.excursions), old(db.auditLogs), old(db.tasks), old(db.nextId));
      var docs := ShipmentReadings(db.readings, shipment.id);
      match Evaluate(ReadingList(docs), policy.row.rules, policy.row.policyType)
      case Err(e) => outcome == Fail(e) && db.excursions == old(db.excursions) && db.auditLogs == old(db.auditLogs)
                     && db.tasks == old(db.tasks) && db.nextId == old(db.nextId)
      case Ok(vs) =>
        var p := Loop(start, vs, Context(shipment.id, shipment.row.policyId, shipment.row.facilityId, docs, now));
        outcome == Pass && Written(db.excursions, db.auditLogs, db.tasks, db.nextId) == p.(tasks := p.tasks + [ComputeRisk(shipment.id)])
  {
    var docs := ShipmentReadings(db.readings, shipment.id);
    var evaluated := EvaluatePolicy(ReadingList(docs), policy.row.rules, policy.row.policyType);
    if evaluated.Err? {
      return Fail(evaluated.error);
    }
    InsertViolations(db, evaluated.value, Context(shipment.id, shipment.row.policyId, shipment.row.facilityId, docs, now));
    db.Schedule(ComputeRisk(shipment.id));
    return Pass;
  }

  // ---------------------------------------------------------------------------
  // Properties of a pass
  // ---------------------------------------------------------------------------

  /**
   * The violations a pass inserts, judged against the excursions that existed before it:
   * a violation is skipped when an older excursion of the shipment was detected near its
   * start, or when the pass has already inserted one and `now` itself is near its start
   * (every excursion of the pass is stamped with `now`).
   */
  function Admitted(existing: seq<Doc<ExcursionRow>>, vs: seq<Violation>, shipment: Id, now: int): seq<Violation> {
    if vs == [] then []
    else
      var prev := Admitted(existing, vs[..|vs| - 1], shipment, now);
      var v := vs[|vs| - 1];
      if AlreadyDetected(existing, shipment, v.startTime) || (prev != [] && InWindow(now, v.startTime)) then prev
      else prev + [v]
  }

  /** The tables after inserting the given violations, two fresh ids each (excursion, then audit entry). */
  function Inserted(p: Written, adm: seq<Violation>, c: Context): Written {
    Written(
      p.excursions + seq(|adm|, k requires 0 <= k < |adm| => Doc(p.nextId + 2 * k, c.now, NewExcursion(adm[k], c))),
      p.auditLogs + seq(|adm|, k requires 0 <= k < |adm| => Doc(p.nextId + 2 * k + 1, c.now, NewAuditEntry(adm[k], c))),
      p.tasks + seq(|adm|, k requires 0 <= k < |adm| =>
                      ExplainAuditLog(p.nextId + 2 * k + 1, DetectedEvent, adm[k].ruleViolated, adm[k].severity)),
      p.nextId + 2 * |adm|)
  }

  /** During a pass, the lookup sees an older excursion near the start, or one of the pass's own (stamped `now`). */
  lemma DetectedAfterInserts(p: Written, adm: seq<Violation>, c: Context, t: int)
    ensures AlreadyDetected(Inserted(p, adm, c).excursions, c.shipment, t)
            <==> AlreadyDetected(p.excursions, c.shipment, t) || (adm != [] && InWindow(c.now, t))
  {
    var ex := Inserted(p, adm, c).excursions;
    if adm != [] && InWindow(c.now, t) {
      assert ex[|p.excursions|].row.shipment == c.shipment;
    }
    if AlreadyDetected(p.excursions, c.shipment, t) {
      var i :| 0 <= i < |p.excursions| && p.excursions[i].row.shipment == c.shipment
               && InWindow(p.excursions[i].row.detectedAt, t);
      assert ex[i] == p.excursions[i];
    }
  }

  /**
   * The loop in closed form: it appends, for each admitted violation in order, one excursion
   * copying the violation, one `excursion_detected` audit entry and one explanation task for
   * that entry, and leaves every earlier row in place.
   */
  lemma {:induction false} LoopClosedForm(p: Written, vs: seq<Violation>, c: Context)
    ensures Loop(p, vs, c) == Inserted(p, Admitted(p.excursions, vs, c.shipment, c.now), c)
  {
    if vs != [] {
      var init := vs[..|vs| - 1];
      var v := vs[|vs| - 1];
      LoopClosedForm(p, init, c);
      var prev := Admitted(p.excursions, init, c.shipment, c.now);
      DetectedAfterInserts(p, prev, c, v.startTime);
      if !(AlreadyDetected(p.excursions, c.shipment, v.startTime) || (prev != [] && InWindow(c.now, v.startTime))) {
        InsertedAppend(p, prev, v, c);
      }
    }
  }

  /** Admitting one more violation adds its excursion, audit entry and task after the earlier ones. */
  lemma InsertedAppend(p: Written, adm: seq<Violation>, v: Violation, c: Context)
    ensures var q := Inserted(p, adm, c);
      Inserted(p, adm + [v], c) == Written(q.excursions + [Doc(q.nextId, c.now, NewExcursion(v, c))],
                                           q.auditLogs + [Doc(q.nextId + 1, c.now, NewAuditEntry(v, c))],
                                           q.tasks + [ExplainAuditLog(q.nextId + 1, DetectedEvent, v.ruleViolated, v.severity)],
                                           q.nextId + 2)
  {
    var q := Inserted(p, adm, c);
    var r := Inserted(p, adm + [v], c);
    var a := adm + [v];
    assert a[|adm|] == v;
    forall k | 0 <= k < |adm| ensures a[k] == adm[k] {
    }
    assert r.excursions == q.excursions + [Doc(q.nextId, c.now, NewExcursion(v, c))];
    assert r.auditLogs == q.auditLogs + [Doc(q.nextId + 1, c.now, NewAuditEntry(v, c))];
    assert r.tasks == q.tasks + [ExplainAuditLog(q.nextId + 1, DetectedEvent, v.ruleViolated, v.severity)];
  }


  /** The admitted violations are an order-preserving selection of the evaluator's output. */
  lemma {:induction false} AdmittedSubseq(existing: seq<Doc<ExcursionRow>>, vs: seq<Violation>, shipment: Id, now: int)
    ensures IsSubseq(Admitted(existing, vs, shipment, now), vs)
    ensures |Admitted(existing, vs, shipment, now)| <= |vs|
  {
    if vs != [] {
      var init := vs[..|vs| - 1];
      AdmittedSubseq(existing, init, shipment, now);
      var adm := Admitted(existing, vs, shipment, now);
      var prev := Admitted(existing, init, shipment, now);
      if adm == prev {
        if adm != [] {
          assert vs == init + [vs[|vs| - 1]];
          SubseqExtend(adm, init, vs[|vs| - 1]);
        }
      } else {
        assert adm[..|adm| - 1] == prev;
      }
    }
  }

  /**
   * A pass never changes or removes existing excursions, audit entries or tasks; it adds at
   * most one excursion per violation, and exactly one audit entry and one explanation task
   * per excursion it adds, each new excursion stamped with the shipment, its policy and `now`.
   */
  lemma LoopEffect(p: Written, vs: seq<Violation>, c: Context)
    ensures var q := Loop(p, vs, c);
      && p.excursions <= q.excursions && p.auditLogs <= q.auditLogs && p.tasks <= q.tasks
      && |q.excursions| <= |p.excursions| + |vs|
      && |q.auditLogs| - |p.auditLogs| == |q.excursions| - |p.excursions| == |q.tasks| - |p.tasks|
      && forall i :: |p.excursions| <= i < |q.excursions| ==>
           var e := q.excursions[i];
           var a := q.auditLogs[|p.auditLogs| + (i - |p.excursions|)];
           && e.row.shipment == c.shipment && e.row.policyId == c.policyId && e.row.detectedAt == c.now
           && a.row.eventType == DetectedEvent && a.row.ruleViolated == Some(e.row.ruleViolated)
           && a.row.severity == Some(e.row.severity)
           && q.tasks[|p.tasks| + (i - |p.excursions|)] == ExplainAuditLog(a.id, DetectedEvent, e.row.ruleViolated, e.row.severity)
  {
    LoopClosedForm(p, vs, c);
    AdmittedSubseq(p.excursions, vs, c.shipment, c.now);
    InsertedShape(p, Admitted(p.excursions, vs, c.shipment, c.now), c);
  }

  /** The rows `Inserted` appends: one excursion, audit entry and task per violation, matched up by position. */
  lemma InsertedShape(p: Written, adm: seq<Violation>, c: Context)
    ensures var q := Inserted(p, adm, c);
      && p.excursions <= q.excursions && p.auditLogs <= q.auditLogs && p.tasks <= q.tasks
      && |q.excursions| == |p.excursions| + |adm|
      && |q.auditLogs| == |p.auditLogs| + |adm| && |q.tasks| == |p.tasks| + |adm|
      && forall i :: |p.excursions| <= i < |q.excursions| ==>
           var e := q.excursions[i];
           var a := q.auditLogs[|p.auditLogs| + (i - |p.excursions|)];
           && e.row.shipment == c.shipment && e.row.policyId == c.policyId && e.row.detectedAt == c.now
           && a.row.eventType == DetectedEvent && a.row.ruleViolated == Some(e.row.ruleViolated)
           && a.row.severity == Some(e.row.severity)
           && q.tasks[|p.tasks| + (i - |p.excursions|)] == ExplainAuditLog(a.id, DetectedEvent, e.row.ruleViolated, e.row.severity)
  {
  }

  /** Whether the shipment exists and its policy exists and is active. */
  predicate ActiveShipment(policies: seq<Doc<PolicyRow>>, shipments: seq<Doc<ShipmentRow>>, shipmentId: Id) {
    match Get(shipments, shipmentId)
    case None => false
    case Some(s) => Get(policies, s.row.policyId).Some? && Get(policies, s.row.policyId).value.row.active
  }

  /** The tables after an active pass whose evaluation returned `vs`. */
  lemma ActivePassEffect(start: Written, vs: seq<Violation>, c: Context)
    ensures var q := Loop(start, vs, c);
      var r := q.(tasks := q.tasks + [ComputeRisk(c.shipment)]);
      && |r.tasks| == |start.tasks| + (|r.excursions| - |start.excursions|) + 1
      && r.tasks[|r.tasks| - 1] == ComputeRisk(c.shipment)
      && start.tasks <= r.tasks && start.excursions <= r.excursions && start.auditLogs <= r.auditLogs
  {
    LoopEffect(start, vs, c);
  }

  /**
   * A missing shipment or a missing or inactive policy leaves the tables unchanged, with no
   * risk recompute queued; an active pass that completes ends the queue with exactly one
   * risk recompute for the shipment, after the explanation tasks of its new excursions.
   */
  lemma DetectionEffect(policies: seq<Doc<PolicyRow>>, shipments: seq<Doc<ShipmentRow>>, readings: seq<Doc<ReadingRow>>,
                        start: Written, shipmentId: Id, now: int)
    ensures !ActiveShipment(policies, shipments, shipmentId) ==>
              Detection(policies, shipments, readings, start, shipmentId, now) == Ok(start)
    ensures ActiveShipment(policies, shipments, shipmentId) ==>
              match Detection(policies, shipments, readings, start, shipmentId, now)
              case Err(_) => true
              case Ok(q) =>
                && |q.tasks| == |start.tasks| + (|q.excursions| - |start.excursions|) + 1
                && q.tasks[|q.tasks| - 1] == ComputeRisk(shipmentId)
                && start.tasks <= q.tasks && start.excursions <= q.excursions && start.auditLogs <= q.auditLogs
  {
    if ActiveShipment(policies, shipments, shipmentId) {
      var shipment := Get(shipments, shipmentId).value;
      var policy := Get(policies, shipment.row.policyId).value;
      var docs := ShipmentReadings(readings, shipmentId);
      var result := Evaluate(ReadingList(docs), policy.row.rules, policy.row.policyType);
      if result.Ok? {
        ActivePassEffect(start, result.value, Context(shipmentId, shipment.row.policyId, shipment.row.facilityId, docs, now));
      }
    }
  }

  /**
   * Detection is not idempotent: the lookup compares the violation's start with `detectedAt`,
   * the time of the earlier pass, so a second pass more than a minute after the reading
   * inserts the same violation again.
   */
  lemma RerunDuplicates()
    ensures var v := Violation(ThresholdHigh, Medium, 0, 60000, 1.0, "threshold_high", Some(9.0));
      var c1 := Context(1, 2, 3, [], 3600000);
      var c2 := Context(1, 2, 3, [], 7200000);
      var first := Loop(Written([], [], [], 10), [v], c1);
      var second := Loop(first, [v], c2);
      && |first.excursions| == 1
      && |second.excursions| == 2
      && second.excursions[0].row.startTime == second.excursions[1].row.startTime
  {
    var v := Violation(ThresholdHigh, Medium, 0, 60000, 1.0, "threshold_high", Some(9.0));
    var c1 := Context(1, 2, 3, [], 3600000);
    var c2 := Context(1, 2, 3, [], 7200000);
    var p := Written([], [], [], 10);
    assert [v][..0] == [];
    LoopClosedForm(p, [v], c1);
    assert Admitted([], [v], 1, 3600000) == [v];
    var first := Loop(p, [v], c1);
    assert first.excursions[0].row.detectedAt == 3600000;
    assert !AlreadyDetected(first.excursions, 1, 0);
    LoopClosedForm(first, [v], c2);
    assert Admitted(first.excursions, [v], 1, 7200000) == [v];
  }
}
