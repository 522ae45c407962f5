/**
 * Persisting a shipment's risk (convex/risk/mutations.ts): score all of the shipment's
 * excursions, then update its newest risk row in place or insert the first one.
 */
module RiskMutations {
  import opened Wrappers
  import opened Types
  import opened Scoring
  import opened Store
  import opened Seqs

  /** The shipment's excursions in table order (the `by_shipment_id` index). */
  function ExcursionsOf(excursions: seq<Doc<ExcursionRow>>, shipment: Id): seq<Doc<ExcursionRow>> {
    Filter(excursions, (e: Doc<ExcursionRow>) => e.row.shipment == shipment)
  }

  function ForScoring(e: Doc<ExcursionRow>): ExcursionForScoring {
    ExcursionForScoring(e.row.severity, e.row.durationMinutes, e.row.ruleViolated)
  }

  /** The type of the shipment's policy, `food` when the policy is missing. */
  function PolicyTypeOf(policies: seq<Doc<PolicyRow>>, policyId: Id): (t: PolicyType)
    ensures (forall i :: 0 <= i < |policies| ==> policies[i].id != policyId) ==> t == Food
    ensures (exists i :: 0 <= i < |policies| && policies[i].id == policyId) ==>
              exists i :: 0 <= i < |policies| && policies[i].id == policyId && t == policies[i].row.policyType
  {
    match Get(policies, policyId)
    case Some(p) => p.row.policyType
    case None => Food
  }

  /** The risk of a shipment: the score over every excursion it has. */
  function RiskOf(excursions: seq<Doc<ExcursionRow>>, policies: seq<Doc<PolicyRow>>, shipment: Doc<ShipmentRow>): RiskResult {
    var es := ExcursionsOf(excursions, shipment.id);
    ComputeRiskScore(seq(|es|, i requires 0 <= i < |es| => ForScoring(es[i])), PolicyTypeOf(policies, shipment.row.policyId))
  }

  /** The position of the shipment's newest risk row (the first row of a descending index scan). */
  function LatestFor(rows: seq<Doc<RiskScoreRow>>, shipment: Id): (r: Option<nat>)
    ensures r.Some? ==> r.value < |rows| && rows[r.value].row.shipment == shipment
                        && forall j :: r.value < j < |rows| ==> rows[j].row.shipment != shipment
    ensures r.None? ==> forall j :: 0 <= j < |rows| ==> rows[j].row.shipment != shipment
  {
    if rows == [] then None
    else if rows[|rows| - 1].row.shipment == shipment then Some(|rows| - 1)
    else LatestFor(rows[..|rows| - 1], shipment)
  }

  /** The risk table after the upsert: patch the newest row of the shipment, or insert one. */
  function Upsert(rows: seq<Doc<RiskScoreRow>>, shipment: Id, result: RiskResult, now: int, freshId: Id): seq<Doc<RiskScoreRow>> {
    match LatestFor(rows, shipment)
    case Some(k) =>
      rows[k := rows[k].(row := rows[k].row.(score := result.score, scoreValue := Some(result.scoreValue),
                                             factors := result.factors, computedAt := now))]
    case None =>
      rows + [Doc(freshId, now, RiskScoreRow(shipment, result.score, Some(result.scoreValue), result.factors, now, None))]
  }

  /**
   * When the shipment has a row, only its newest row changes, and only in score, value,
   * factors and time; its `aiSummary` and every other row stay, and no row is added.
   */
  lemma UpsertExisting(rows: seq<Doc<RiskScoreRow>>, shipment: Id, result: RiskResult, now: int, freshId: Id, k: nat)
    requires LatestFor(rows, shipment) == Some(k)
    ensures var r := Upsert(rows, shipment, result, now, freshId);
      && |r| == |rows|
      && r[k].id == rows[k].id && r[k].creationTime == rows[k].creationTime
      && r[k].row.shipment == shipment && r[k].row.aiSummary == rows[k].row.aiSummary
      && r[k].row.score == result.score && r[k].row.scoreValue == Some(result.scoreValue)
      && r[k].row.factors == result.factors && r[k].row.computedAt == now
      && forall i :: 0 <= i < |rows| && i != k ==> r[i] == rows[i]
  {
  }

  /** When the shipment has no row, exactly one row for it is appended and nothing else changes. */
  lemma UpsertNew(rows: seq<Doc<RiskScoreRow>>, shipment: Id, result: RiskResult, now: int, freshId: Id)
    requires LatestFor(rows, shipment).None?
    ensures var r := Upsert(rows, shipment, result, now, freshId);
      && |r| == |rows| + 1 && r[..|rows|] == rows
      && r[|rows|].id == freshId && r[|rows|].row.shipment == shipment
      && r[|rows|].row.score == result.score && r[|rows|].row.scoreValue == Some(result.scoreValue)
      && r[|rows|].row.factors == result.factors && r[|rows|].row.computedAt == now
      && forall i :: 0 <= i < |r| && r[i].row.shipment == shipment ==> i == |rows|
  {
  }

  /** After the upsert the shipment's newest row carries exactly the computed result. */
  lemma UpsertStoresResult(rows: seq<Doc<RiskScoreRow>>, shipment: Id, result: RiskResult, now: int, freshId: Id)
    ensures var r := Upsert(rows, shipment, result, now, freshId);
      && LatestFor(r, shipment).Some?
      && var row := r[LatestFor(r, shipment).value].row;
      row.score == result.score && row.scoreValue == Some(result.scoreValue) && row.factors == result.factors
      && row.computedAt == now
  {
    var r := Upsert(rows, shipment, result, now, freshId);
    match LatestFor(rows, shipment)
    case Some(k) =>
      assert LatestFor(r, shipment) == Some(k) by { LatestUnique(r, shipment, k); }
    case None =>
      assert LatestFor(r, shipment) == Some(|rows|) by { LatestUnique(r, shipment, |rows|); }
  }

  lemma LatestUnique(rows: seq<Doc<RiskScoreRow>>, shipment: Id, k: nat)
    requires k < |rows| && rows[k].row.shipment == shipment
    requires forall j :: k < j < |rows| ==> rows[j].row.shipment != shipment
    ensures LatestFor(rows, shipment) == Some(k)
  {
  }

  /** Two rows that differ at most in `computedAt`. */
  predicate SameButComputedAt(a: Doc<RiskScoreRow>, b: Doc<RiskScoreRow>) {
    a.(row := a.row.(computedAt := 0)) == b.(row := b.row.(computedAt := 0))
  }

  /**
   * Running the upsert again with the same result adds no row and changes nothing but
   * `computedAt` of the shipment's row.
   */
  lemma UpsertRerun(rows: seq<Doc<RiskScoreRow>>, shipment: Id, result: RiskResult, t1: int, id1: Id, t2: int, id2: Id)
    ensures var once := Upsert(rows, shipment, result, t1, id1);
      var twice := Upsert(once, shipment, result, t2, id2);
      && |twice| == |once|
      && forall i :: 0 <= i < |once| ==> SameButComputedAt(twice[i], once[i])
  {
    UpsertStoresResult(rows, shipment, result, t1, id1);
  }

  /**
   * `computeAndPersist`: a missing shipment changes nothing; otherwise the risk table becomes
   * the upsert of the score over all of the shipment's excursions.
   */
  method ComputeAndPersist(db: Db, shipmentId: Id, now: int)
    requires db.Valid()
    modifies db`riskScores, db`nextId
    ensures db.Valid()
    ensures Get(db.shipments, shipmentId).None? ==> db.riskScores == old(db.riskScores) && db.nextId == old(db.nextId)
    ensures Get(db.shipments, shipmentId).Some? ==>
      db.riskScores == Upsert(old(db.riskScores), shipmentId,
                              RiskOf(db.excursions, db.policies, Get(db.shipments, shipmentId).value), now, old(db.nextId))
    ensures Get(db.shipments, shipmentId).Some? ==>
      db.nextId == old(db.nextId) + (if LatestFor(old(db.riskScores), shipmentId).Some? then 0 else 1)
  {
    var shipment := Get(db.shipments, shipmentId);
    if shipment.None? {
      return;
    }
    var result := RiskOf(db.excursions, db.policies, shipment.value);
    var existing := LatestFor(db.riskScores, shipmentId);
    if existing.Some? {
      var k := existing.value;
      ghost var before := db.riskScores;
      db.riskScores := db.riskScores[k := db.riskScores[k].(row := db.riskScores[k].row.(
        score := result.score, scoreValue := Some(result.scoreValue), factors := result.factors, computedAt := now))];
      IdsFreshPatched(before, db.riskScores, db.nextId);
    } else {
      var _ := db.InsertRiskScore(now, RiskScoreRow(shipmentId, result.score, Some(result.scoreValue), result.factors, now, None));
    }
  }
}
