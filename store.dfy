/**
 * The database the mutations and queries run against (convex/schema.ts): one table per
 * document kind, each a sequence of documents in insertion order, plus the scheduler's
 * queue of pending function calls. Ids come from one counter, so a table's ids grow in
 * insertion order.
 */
module Store {
  import opened Wrappers
  import opened Types
  import opened Scoring

  type Id = nat

  /** A stored document: the system fields `_id` and `_creationTime`, then the table's own fields. */
  datatype Doc<T> = Doc(id: Id, creationTime: int, row: T)

  datatype PolicyRow = PolicyRow(name: string, policyType: PolicyType, rules: PolicyRules, active: bool,
                                 createdBy: Option<Id>, updatedAt: int)

  datatype ShipmentRow = ShipmentRow(shipmentId: string, facilityId: Id, productType: string, policyId: Id)

  datatype ReadingRow = ReadingRow(shipment: Id, timestamp: int, temperature: real, source: string)

  datatype ExcursionRow = ExcursionRow(shipment: Id, readingId: Option<Id>, startTime: int, endTime: Option<int>,
                                       policyId: Id, ruleViolated: string, severity: Severity,
                                       durationMinutes: real, detectedAt: int, resolvedAt: Option<int>)

  datatype RiskScoreRow = RiskScoreRow(shipment: Id, score: RiskBand, scoreValue: Option<int>, factors: seq<Factor>,
                                       computedAt: int, aiSummary: Option<string>)

  /** The `details` object an excursion audit entry carries. */
  datatype ExcursionDetails = ExcursionDetails(temperatureC: Option<real>, durationMinutes: real, startTime: int, endTime: int)

  datatype AuditRow = AuditRow(timestamp: int, shipment: Option<Id>, facility: Option<Id>, eventType: string,
                               ruleViolated: Option<string>, severity: Option<Severity>,
                               correctiveAction: Option<string>, details: Option<ExcursionDetails>,
                               aiExplanation: Option<string>)

  datatype CompanyRow = CompanyRow(name: string, slug: string, createdAt: int)

  datatype InsightRow = InsightRow(shipment: Option<Id>, insightType: string, content: string)

  /** A scheduled function call (`ctx.scheduler.runAfter(0, ...)`) with its arguments. */
  datatype Task =
    | ExplainAuditLog(auditLogId: Id, eventType: string, ruleViolated: string, severity: Severity)
    | ComputeRisk(shipment: Id)
    | RunDetection(shipment: Id)

  /**
   * Ids strictly increase along the table and are all below the next id to hand out: each
   * document's id is below the next document's, and the last one's is below `nextId`.
   */
  ghost predicate IdsFresh<T>(table: seq<Doc<T>>, nextId: Id) {
    forall i | 0 <= i < |table| :: IdBelowNext(table, i, nextId)
  }

  ghost predicate IdBelowNext<T>(table: seq<Doc<T>>, i: nat, nextId: Id)
    requires i < |table|
  {
    table[i].id < if i + 1 < |table| then table[i + 1].id else nextId
  }

  /** A document's id is below `nextId` and below the id of every document after it. */
  lemma {:induction false} IdsFreshAbove<T>(table: seq<Doc<T>>, nextId: Id, i: nat)
    requires IdsFresh(table, nextId) && i < |table|
    ensures table[i].id < nextId
    ensures forall j :: i < j < |table| ==> table[i].id < table[j].id
    decreases |table| - i
  {
    assert IdBelowNext(table, i, nextId);
    if i + 1 < |table| {
      IdsFreshAbove(table, nextId, i + 1);
    }
  }

  /** The positional form of `IdsFresh`. */
  lemma IdsFreshOrdered<T>(table: seq<Doc<T>>, nextId: Id)
    requires IdsFresh(table, nextId)
    ensures forall i :: 0 <= i < |table| ==> table[i].id < nextId
    ensures forall i, j :: 0 <= i < j < |table| ==> table[i].id < table[j].id
  {
    forall i | 0 <= i < |table| ensures table[i].id < nextId && forall j :: i < j < |table| ==> table[i].id < table[j].id {
      IdsFreshAbove(table, nextId, i);
    }
  }

  /** The position of the document with id `id` (`ctx.db.get`), if there is one. */
  function IndexOfId<T>(table: seq<Doc<T>>, id: Id): (r: Option<nat>)
    ensures r.Some? ==> r.value < |table| && table[r.value].id == id
    ensures r.None? ==> forall i :: 0 <= i < |table| ==> table[i].id != id
  {
    if table == [] then None
    else if table[|table| - 1].id == id then Some(|table| - 1)
    else IndexOfId(table[..|table| - 1], id)
  }

  /** The document with id `id`, if there is one. */
  function Get<T>(table: seq<Doc<T>>, id: Id): (r: Option<Doc<T>>)
    ensures r.Some? <==> exists i :: 0 <= i < |table| && table[i].id == id
    ensures r.Some? ==> r.value in table && r.value.id == id
  {
    match IndexOfId(table, id)
    case Some(k) => Some(table[k])
    case None => None
  }

  /** With fresh ids, the document with a given id sits at exactly one position. */
  lemma IndexOfIdUnique<T>(table: seq<Doc<T>>, nextId: Id, id: Id, k: nat)
    requires IdsFresh(table, nextId)
    requires k < |table| && table[k].id == id
    ensures IndexOfId(table, id) == Some(k)
  {
    IdsFreshOrdered(table, nextId);
  }

  class Db {
    var policies: seq<Doc<PolicyRow>>
    var shipments: seq<Doc<ShipmentRow>>
    var readings: seq<Doc<ReadingRow>>
    var excursions: seq<Doc<ExcursionRow>>
    var riskScores: seq<Doc<RiskScoreRow>>
    var auditLogs: seq<Doc<AuditRow>>
    var companies: seq<Doc<CompanyRow>>
    var aiInsights: seq<Doc<InsightRow>>
    /** The scheduler queue: calls queued by committed mutations, oldest first. */
    var tasks: seq<Task>
    var nextId: Id

    ghost predicate Valid()
      reads this`policies, this`shipments, this`readings, this`excursions, this`riskScores, this`auditLogs,
            this`companies, this`aiInsights, this`nextId
    {
      && IdsFresh(policies, nextId)
      && IdsFresh(shipments, nextId)
      && IdsFresh(readings, nextId)
      && IdsFresh(excursions, nextId)
      && IdsFresh(riskScores, nextId)
      && IdsFresh(auditLogs, nextId)
      && IdsFresh(companies, nextId)
      && IdsFresh(aiInsights, nextId)
    }

    /** `ctx.db.insert("policies", row)`: one document with the next id, appended. */
    method InsertPolicy(now: int, row: PolicyRow) returns (id: Id)
      requires Valid()
      modifies this`policies, this`nextId
      ensures Valid()
      ensures id == old(nextId) && nextId == id + 1
      ensures policies == old(policies) + [Doc(id, now, row)]
    {
      id := nextId;
      IdsFreshAppend(policies, id, Doc(id, now, row));
      policies := policies + [Doc(id, now, row)];
      nextId := nextId + 1;
      IdsFreshGrow(shipments, id, nextId);
      IdsFreshGrow(readings, id, nextId);
      IdsFreshGrow(excursions, id, nextId);
      IdsFreshGrow(riskScores, id, nextId);
      IdsFreshGrow(auditLogs, id, nextId);
      IdsFreshGrow(companies, id, nextId);
      IdsFreshGrow(aiInsights, id, nextId);
    }

    /** `ctx.db.insert("shipments", row)`: one document with the next id, appended. */
    method InsertShipment(now: int, row: ShipmentRow) returns (id: Id)
      requires Valid()
      modifies this`shipments, this`nextId
      ensures Valid()
      ensures id == old(nextId) && nextId == id + 1
      ensures shipments == old(shipments) + [Doc(id, now, row)]
    {
      id := nextId;
      IdsFreshAppend(shipments, id, Doc(id, now, row));
      shipments := shipments + [Doc(id, now, row)];
      nextId := nextId + 1;
      IdsFreshGrow(policies, id, nextId);
      IdsFreshGrow(readings, id, nextId);
      IdsFreshGrow(excursions, id, nextId);
      IdsFreshGrow(riskScores, id, nextId);
      IdsFreshGrow(auditLogs, id, nextId);
      IdsFreshGrow(companies, id, nextId);
      IdsFreshGrow(aiInsights, id, nextId);
    }

    /** `ctx.db.insert("readings", row)`: one document with the next id, appended. */
    method InsertReading(now: int, row: ReadingRow) returns (id: Id)
      requires Valid()
      modifies this`readings, this`nextId
      ensures Valid()
      ensures id == old(nextId) && nextId == id + 1
      ensures readings == old(readings) + [Doc(id, now, row)]
    {
      id := nextId;
      IdsFreshAppend(readings, id, Doc(id, now, row));
      readings := readings + [Doc(id, now, row)];
      nextId := nextId + 1;
      IdsFreshGrow(policies, id, nextId);
      IdsFreshGrow(shipments, id, nextId);
      IdsFreshGrow(excursions, id, nextId);
      IdsFreshGrow(riskScores, id, nextId);
      IdsFreshGrow(auditLogs, id, nextId);
      IdsFreshGrow(companies, id, nextId);
      IdsFreshGrow(aiInsights, id, nextId);
    }

    /** `ctx.db.insert("excursions", row)`: one document with the next id, appended. */
    method InsertExcursion(now: int, row: ExcursionRow) returns (id: Id)
      requires Valid()
      modifies this`excursions, this`nextId
      ensures Valid()
      ensures id == old(nextId) && nextId == id + 1
      ensures excursions == old(excursions) + [Doc(id, now, row)]
    {
      id := nextId;
      IdsFreshAppend(excursions, id, Doc(id, now, row));
      excursions := excursions + [Doc(id, now, row)];
      nextId := nextId + 1;
      IdsFreshGrow(policies, id, nextId);
      IdsFreshGrow(shipments, id, nextId);
      IdsFreshGrow(readings, id, nextId);
      IdsFreshGrow(riskScores, id, nextId);
      IdsFreshGrow(auditLogs, id, nextId);
      IdsFreshGrow(companies, id, nextId);
      IdsFreshGrow(aiInsights, id, nextId);
    }

    /** `ctx.db.insert("riskScores", row)`: one document with the next id, appended. */
    method InsertRiskScore(now: int, row: RiskScoreRow) returns (id: Id)
      requires Valid()
      modifies this`riskScores, this`nextId
      ensures Valid()
      ensures id == old(nextId) && nextId == id + 1
      ensures riskScores == old(riskScores) + [Doc(id, now, row)]
    {
      id := nextId;
      IdsFreshAppend(riskScores, id, Doc(id, now, row));
      riskScores := riskScores + [Doc(id, now, row)];
      nextId := nextId + 1;
      IdsFreshGrow(policies, id, nextId);
      IdsFreshGrow(shipments, id, nextId);
      IdsFreshGrow(readings, id, nextId);
      IdsFreshGrow(excursions, id, nextId);
      IdsFreshGrow(auditLogs, id, nextId);
      IdsFreshGrow(companies, id, nextId);
      IdsFreshGrow(aiInsights, id, nextId);
    }

    /** `ctx.scheduler.runAfter(0, ...)`: the call joins the end of the queue; no table changes. */
    method Schedule(task: Task)
      requires Valid()
      modifies this`tasks
      ensures Valid()
      ensures tasks == old(tasks) + [task]
    {
      tasks := tasks + [task];
    }

    /** `ctx.db.insert("auditLogs", row)`: one document with the next id, appended. */
    method InsertAuditLog(now: int, row: AuditRow) returns (id: Id)
      requires Valid()
      modifies this`auditLogs, this`nextId
      ensures Valid()
      ensures id == old(nextId) && nextId == id + 1
      ensures auditLogs == old(auditLogs) + [Doc(id, now, row)]
    {
      id := nextId;
      IdsFreshAppend(auditLogs, id, Doc(id, now, row));
      auditLogs := auditLogs + [Doc(id, now, row)];
      nextId := nextId + 1;
      IdsFreshGrow(policies, id, nextId);
      IdsFreshGrow(shipments, id, nextId);
      IdsFreshGrow(readings, id, nextId);
      IdsFreshGrow(excursions, id, nextId);
      IdsFreshGrow(riskScores, id, nextId);
      IdsFreshGrow(companies, id, nextId);
      IdsFreshGrow(aiInsights, id, nextId);
    }

    /** `ctx.db.insert("companies", row)`: one document with the next id, appended. */
    method InsertCompany(now: int, row: CompanyRow) returns (id: Id)
      requires Valid()
      modifies this`companies, this`nextId
      ensures Valid()
      ensures id == old(nextId) && nextId == id + 1
      ensures companies == old(companies) + [Doc(id, now, row)]
    {
      id := nextId;
      IdsFreshAppend(companies, id, Doc(id, now, row));
      companies := companies + [Doc(id, now, row)];
      nextId := nextId + 1;
      IdsFreshGrow(policies, id, nextId);
      IdsFreshGrow(shipments, id, nextId);
      IdsFreshGrow(readings, id, nextId);
      IdsFreshGrow(excursions, id, nextId);
      IdsFreshGrow(riskScores, id, nextId);
      IdsFreshGrow(auditLogs, id, nextId);
      IdsFreshGrow(aiInsights, id, nextId);
    }

    constructor ()
      ensures Valid()
      ensures policies == [] && shipments == [] && readings == [] && excursions == []
      ensures riskScores == [] && auditLogs == [] && companies == [] && aiInsights == []
      ensures tasks == [] && nextId == 0
    {
      policies, shipments, readings, excursions := [], [], [], [];
      riskScores, auditLogs, companies, aiInsights := [], [], [], [];
      tasks, nextId := [], 0;
    }
  }

  /** Appending a document with the next id keeps the table's ids fresh for the bumped counter. */
  lemma IdsFreshAppend<T>(table: seq<Doc<T>>, nextId: Id, d: Doc<T>)
    requires IdsFresh(table, nextId)
    requires d.id == nextId
    ensures IdsFresh(table + [d], nextId + 1)
  {
    var t, n := table + [d], nextId + 1;
    forall i | 0 <= i < |t| ensures IdBelowNext(t, i, n) {
      if i < |table| {
        assert IdBelowNext(table, i, nextId);
        assert t[i] == table[i];
        if i + 1 < |table| {
          assert t[i + 1] == table[i + 1];
        }
      }
    }
  }

  lemma IdsFreshGrow<T>(table: seq<Doc<T>>, nextId: Id, later: Id)
    requires IdsFresh(table, nextId)
    requires nextId <= later
    ensures IdsFresh(table, later)
  {
    forall i | 0 <= i < |table| ensures IdBelowNext(table, i, later) {
      assert IdBelowNext(table, i, nextId);
    }
  }

  /** Patching documents in place keeps their ids, so it keeps the table's ids fresh. */
  lemma IdsFreshPatched<T>(table: seq<Doc<T>>, patched: seq<Doc<T>>, nextId: Id)
    requires IdsFresh(table, nextId)
    requires |patched| == |table|
    requires forall i :: 0 <= i < |table| ==> patched[i].id == table[i].id
    ensures IdsFresh(patched, nextId)
  {
    forall i | 0 <= i < |patched| ensures IdBelowNext(patched, i, nextId) {
      assert IdBelowNext(table, i, nextId);
    }
  }
}
