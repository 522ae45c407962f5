/**
 * Dashboard queries (convex/dashboard.ts): the four KPI counts, and the recent readings,
 * excursions, audit entries and AI insights, each cut to a limit.
 */
module Dashboard {
  import opened Wrappers
  import opened Types
  import opened Store
  import opened Seqs
  import opened Sorting
  import opened Scoring
  import opened Shipments

  // ---------------------------------------------------------------------------
  // kpis
  // ---------------------------------------------------------------------------

  datatype Kpis = Kpis(totalShipments: nat, openExcursions: nat, highRiskCount: nat, auditEventsToday: nat)

  function IdsOf(ss: seq<Doc<ShipmentRow>>): (r: seq<Id>)
    ensures |r| == |ss|
    ensures forall k :: 0 <= k < |ss| ==> r[k] == ss[k].id
  {
    seq(|ss|, k requires 0 <= k < |ss| => ss[k].id)
  }

  /** `!e.resolvedAt`: no resolution time, or a resolution time of 0. */
  predicate IsOpen(e: Doc<ExcursionRow>) {
    e.row.resolvedAt.None? || e.row.resolvedAt == Some(0)
  }

  function OpenOf(ids: seq<Id>): Doc<ExcursionRow> -> bool {
    (e: Doc<ExcursionRow>) => e.row.shipment in ids && IsOpen(e)
  }

  function ClosedOf(ids: seq<Id>): Doc<ExcursionRow> -> bool {
    (e: Doc<ExcursionRow>) => e.row.shipment in ids && !IsOpen(e)
  }

  function ExcursionOf(ids: seq<Id>): Doc<ExcursionRow> -> bool {
    (e: Doc<ExcursionRow>) => e.row.shipment in ids
  }

  function HighOf(ids: seq<Id>): Doc<RiskScoreRow> -> bool {
    (r: Doc<RiskScoreRow>) => r.row.shipment in ids && r.row.score == HighRisk
  }

  function Since(todayMs: int): Doc<AuditRow> -> bool {
    (a: Doc<AuditRow>) => a.row.timestamp >= todayMs
  }

  /** `kpis`; `todayMs` is local midnight of the current day, which the source reads from the clock. */
  function ComputeKpis(policies: seq<Doc<PolicyRow>>, shipments: seq<Doc<ShipmentRow>>,
                       excursions: seq<Doc<ExcursionRow>>, riskScores: seq<Doc<RiskScoreRow>>,
                       auditLogs: seq<Doc<AuditRow>>, policyType: Option<PolicyType>, todayMs: int): Kpis
  {
    var ids := IdsOf(ShipmentsOfType(shipments, policies, policyType));
    Kpis(|ids|, |Filter(excursions, OpenOf(ids))|, |Filter(riskScores, HighOf(ids))|,
         |Filter(auditLogs, Since(todayMs))|)
  }

  /**
   * What each count counts: the shipments of the type (all of them without one); the open
   * excursions of those shipments; their risk scores in the high band; and every audit entry
   * since midnight, whatever the type.
   */
  lemma KpisCount(policies: seq<Doc<PolicyRow>>, shipments: seq<Doc<ShipmentRow>>,
                  excursions: seq<Doc<ExcursionRow>>, riskScores: seq<Doc<RiskScoreRow>>,
                  auditLogs: seq<Doc<AuditRow>>, policyType: Option<PolicyType>, todayMs: int)
    ensures var k := ComputeKpis(policies, shipments, excursions, riskScores, auditLogs, policyType, todayMs);
      var sel := ShipmentsOfType(shipments, policies, policyType);
      && k.totalShipments == |sel|
      && (policyType.None? ==> k.totalShipments == |shipments|)
      && (forall e :: e in Filter(excursions, OpenOf(IdsOf(sel))) <==>
            e in excursions && IsOpen(e) && exists j :: 0 <= j < |sel| && sel[j].id == e.row.shipment)
      && (forall r :: r in Filter(riskScores, HighOf(IdsOf(sel))) <==>
            r in riskScores && r.row.score == HighRisk && exists j :: 0 <= j < |sel| && sel[j].id == r.row.shipment)
      && (forall a :: a in Filter(auditLogs, Since(todayMs)) <==> a in auditLogs && a.row.timestamp >= todayMs)
      && k.openExcursions == |Filter(excursions, OpenOf(IdsOf(sel)))|
      && k.highRiskCount == |Filter(riskScores, HighOf(IdsOf(sel)))|
      && k.auditEventsToday == |Filter(auditLogs, Since(todayMs))|
  {
    var sel := ShipmentsOfType(shipments, policies, policyType);
    var ids := IdsOf(sel);
    forall e ensures e in Filter(excursions, OpenOf(ids)) <==>
        e in excursions && IsOpen(e) && exists j :: 0 <= j < |sel| && sel[j].id == e.row.shipment {
      FilterMembers(excursions, OpenOf(ids), e);
      if e.row.shipment in ids {
        var j :| 0 <= j < |ids| && ids[j] == e.row.shipment;
      }
    }
    forall r ensures r in Filter(riskScores, HighOf(ids)) <==>
        r in riskScores && r.row.score == HighRisk && exists j :: 0 <= j < |sel| && sel[j].id == r.row.shipment {
      FilterMembers(riskScores, HighOf(ids), r);
      if r.row.shipment in ids {
        var j :| 0 <= j < |ids| && ids[j] == r.row.shipment;
      }
    }
    forall a ensures a in Filter(auditLogs, Since(todayMs)) <==> a in auditLogs && a.row.timestamp >= todayMs {
      FilterMembers(auditLogs, Since(todayMs), a);
    }
  }

  /** The audit count ignores the policy type. */
  lemma KpisAuditIgnoresType(policies: seq<Doc<PolicyRow>>, shipments: seq<Doc<ShipmentRow>>,
                             excursions: seq<Doc<ExcursionRow>>, riskScores: seq<Doc<RiskScoreRow>>,
                             auditLogs: seq<Doc<AuditRow>>, t: PolicyType, todayMs: int)
    ensures ComputeKpis(policies, shipments, excursions, riskScores, auditLogs, Some(t), todayMs).auditEventsToday
            == ComputeKpis(policies, shipments, excursions, riskScores, auditLogs, None, todayMs).auditEventsToday
  {
  }

  /**
   * Open excursions are the excursions of the selected shipments that are not resolved: open
   * and resolved ones together are all excursions of those shipments.
   */
  lemma KpisOpenPartition(policies: seq<Doc<PolicyRow>>, shipments: seq<Doc<ShipmentRow>>,
                          excursions: seq<Doc<ExcursionRow>>, riskScores: seq<Doc<RiskScoreRow>>,
                          auditLogs: seq<Doc<AuditRow>>, policyType: Option<PolicyType>, todayMs: int)
    ensures var ids := IdsOf(ShipmentsOfType(shipments, policies, policyType));
      ComputeKpis(policies, shipments, excursions, riskScores, auditLogs, policyType, todayMs).openExcursions
        + |Filter(excursions, ClosedOf(ids))| == |Filter(excursions, ExcursionOf(ids))|
  {
    var ids := IdsOf(ShipmentsOfType(shipments, policies, policyType));
    FilterUnion(excursions, OpenOf(ids), ClosedOf(ids), ExcursionOf(ids));
  }

  /** With every shipment's policy present, the food and pharma shipment counts add up to the total. */
  lemma KpisShipmentsSplit(policies: seq<Doc<PolicyRow>>, shipments: seq<Doc<ShipmentRow>>,
                           excursions: seq<Doc<ExcursionRow>>, riskScores: seq<Doc<RiskScoreRow>>,
                           auditLogs: seq<Doc<AuditRow>>, todayMs: int, nextId: Id)
    requires IdsFresh(policies, nextId)
    requires forall k :: 0 <= k < |shipments| ==> Get(policies, shipments[k].row.policyId).Some?
    ensures ComputeKpis(policies, shipments, excursions, riskScores, auditLogs, Some(Food), todayMs).totalShipments
            + ComputeKpis(policies, shipments, excursions, riskScores, auditLogs, Some(Pharma), todayMs).totalShipments
            == ComputeKpis(policies, shipments, excursions, riskScores, auditLogs, None, todayMs).totalShipments
  {
    ShipmentsSplitByType(shipments, policies, nextId);
  }

  // ---------------------------------------------------------------------------
  // recentTemperatureReadings
  // ---------------------------------------------------------------------------

  const DefaultReadingsLimit: nat := 50
  const DefaultExcursionsLimit: nat := 20
  const DefaultAuditLimit: nat := 25
  const DefaultInsightsLimit: nat := 10

  datatype ReadingView = ReadingView(id: Id, timestamp: int, temperature: real, shipment: Id)

  function ReadingViews(rs: seq<Doc<ReadingRow>>): (r: seq<ReadingView>)
    ensures |r| == |rs|
    ensures forall k :: 0 <= k < |rs| ==> r[k] == ReadingView(rs[k].id, rs[k].row.timestamp, rs[k].row.temperature, rs[k].row.shipment)
  {
    seq(|rs|, k requires 0 <= k < |rs| => ReadingView(rs[k].id, rs[k].row.timestamp, rs[k].row.temperature, rs[k].row.shipment))
  }

  /** Sort key for newest timestamp first. */
  function LatestFirst(): Doc<ReadingRow> -> int {
    (d: Doc<ReadingRow>) => -d.row.timestamp
  }

  function OfShipment(shipment: Id): Doc<ReadingRow> -> bool {
    (d: Doc<ReadingRow>) => d.row.shipment == shipment
  }

  /**
   * The readings `recentTemperatureReadings` returns. With a shipment: its readings through
   * the (shipment, timestamp) index in descending order, first `limit`. Without: the
   * `3 * limit` most recently inserted readings, sorted by timestamp, newest first, first `limit`.
   */
  function RecentReadingDocs(readings: seq<Doc<ReadingRow>>, shipment: Option<Id>, limit: Option<nat>): seq<Doc<ReadingRow>> {
    var n := limit.GetOr(DefaultReadingsLimit);
    match shipment
    case Some(id) => Take(SortBy(Reverse(Filter(readings, OfShipment(id))), LatestFirst()), n)
    case None => Take(SortBy(Take(Reverse(readings), n * 3), LatestFirst()), n)
  }

  function RecentTemperatureReadings(readings: seq<Doc<ReadingRow>>, shipment: Option<Id>, limit: Option<nat>): seq<ReadingView> {
    ReadingViews(RecentReadingDocs(readings, shipment, limit))
  }

  /**
   * Sorting a pool newest first and keeping `n`: at most `n` readings, newest timestamp first,
   * all from the pool, and none left out of the pool newer than one kept.
   */
  lemma NewestTaken(pool: seq<Doc<ReadingRow>>, n: nat)
    ensures var r := Take(SortBy(pool, LatestFirst()), n);
      && |r| <= n
      && (forall i, j :: 0 <= i < j < |r| ==> r[i].row.timestamp >= r[j].row.timestamp)
      && (forall x :: x in r ==> x in multiset(pool))
      && (forall x :: x in pool && x !in r ==> forall k :: 0 <= k < |r| ==> x.row.timestamp <= r[k].row.timestamp)
  {
    var r := Take(SortBy(pool, LatestFirst()), n);
    TakeSmallest(pool, LatestFirst(), n);
    forall i, j | 0 <= i < j < |r| ensures r[i].row.timestamp >= r[j].row.timestamp {
      assert LatestFirst()(r[i]) <= LatestFirst()(r[j]);
    }
    forall x | x in pool && x !in r ensures forall k :: 0 <= k < |r| ==> x.row.timestamp <= r[k].row.timestamp {
      assert forall k :: 0 <= k < |r| ==> LatestFirst()(r[k]) <= LatestFirst()(x);
    }
  }

  /**
   * At most `limit` (50 by default) readings, newest timestamp first. Without a shipment they
   * come from the `3 * limit` most recently inserted readings.
   */
  lemma RecentReadingsUnfiltered(readings: seq<Doc<ReadingRow>>, limit: Option<nat>)
    ensures var r := RecentReadingDocs(readings, None, limit); var n := limit.GetOr(DefaultReadingsLimit);
      && |r| <= n
      && (forall i, j :: 0 <= i < j < |r| ==> r[i].row.timestamp >= r[j].row.timestamp)
      && (forall x :: x in r ==> x in Take(Reverse(readings), n * 3))
  {
    var n := limit.GetOr(DefaultReadingsLimit);
    NewestTaken(Take(Reverse(readings), n * 3), n);
  }

  /**
   * With a shipment: at most `limit` readings, all of that shipment, newest timestamp first,
   * and no reading of the shipment that is left out is newer than one returned.
   */
  lemma RecentReadingsOfShipment(readings: seq<Doc<ReadingRow>>, shipment: Id, limit: Option<nat>)
    ensures var r := RecentReadingDocs(readings, Some(shipment), limit); var n := limit.GetOr(DefaultReadingsLimit);
      && |r| <= n
      && (forall i, j :: 0 <= i < j < |r| ==> r[i].row.timestamp >= r[j].row.timestamp)
      && (forall x :: x in r ==> x in readings && x.row.shipment == shipment)
      && (forall x :: x in readings && x.row.shipment == shipment && x !in r ==>
            forall k :: 0 <= k < |r| ==> x.row.timestamp <= r[k].row.timestamp)
  {
    var n := limit.GetOr(DefaultReadingsLimit);
    var own := Filter(readings, OfShipment(shipment));
    var pool := Reverse(own);
    var r := Take(SortBy(pool, LatestFirst()), n);
    assert RecentReadingDocs(readings, Some(shipment), limit) == r;
    NewestTaken(pool, n);
    ReversePermutes(own);
    forall x | x in r ensures x in readings && x.row.shipment == shipment {
      assert x in multiset(own);
      FilterMembers(readings, OfShipment(shipment), x);
    }
    forall x | x in readings && x.row.shipment == shipment
      ensures x in pool
    {
      FilterMembers(readings, OfShipment(shipment), x);
      assert x in multiset(pool);
    }
  }

  // ---------------------------------------------------------------------------
  // recentExcursions, recentAuditLogs
  // ---------------------------------------------------------------------------

  datatype ExcursionView = ExcursionView(id: Id, shipment: Id, ruleViolated: string, severity: Severity,
                                         durationMinutes: real, detectedAt: int, startTime: int, endTime: Option<int>)

  function ExcursionViewOf(e: Doc<ExcursionRow>): ExcursionView {
    ExcursionView(e.id, e.row.shipment, e.row.ruleViolated, e.row.severity, e.row.durationMinutes,
                  e.row.detectedAt, e.row.startTime, e.row.endTime)
  }

  /** `recentExcursions`: the `limit` (20 by default) most recently inserted excursions, newest first. */
  function RecentExcursions(excursions: seq<Doc<ExcursionRow>>, limit: Option<nat>): (r: seq<ExcursionView>)
    ensures |r| <= limit.GetOr(DefaultExcursionsLimit) && |r| <= |excursions|
    ensures forall k :: 0 <= k < |r| ==> r[k] == ExcursionViewOf(excursions[|excursions| - 1 - k])
  {
    var list := Take(Reverse(excursions), limit.GetOr(DefaultExcursionsLimit));
    seq(|list|, k requires 0 <= k < |list| => ExcursionViewOf(list[k]))
  }

  /** With fresh ids, the excursion list runs from the highest id down. */
  lemma RecentExcursionsNewestFirst(excursions: seq<Doc<ExcursionRow>>, nextId: Id, limit: Option<nat>)
    requires IdsFresh(excursions, nextId)
    ensures var r := RecentExcursions(excursions, limit);
      forall i, j :: 0 <= i < j < |r| ==> r[i].id > r[j].id
  {
    IdsFreshOrdered(excursions, nextId);
  }

  datatype AuditView = AuditView(id: Id, timestamp: int, eventType: string, ruleViolated: Option<string>,
                                 severity: Option<Severity>, aiExplanation: Option<string>)

  function AuditViewOf(a: Doc<AuditRow>): AuditView {
    AuditView(a.id, a.row.timestamp, a.row.eventType, a.row.ruleViolated, a.row.severity, a.row.aiExplanation)
  }

  function NewestEntryFirst(): Doc<AuditRow> -> int {
    (a: Doc<AuditRow>) => -a.row.timestamp
  }

  /** The entries `recentAuditLogs` reads: the timestamp index in descending order, first `limit` (25 by default). */
  function RecentAuditDocs(auditLogs: seq<Doc<AuditRow>>, limit: Option<nat>): seq<Doc<AuditRow>> {
    Take(SortBy(Reverse(auditLogs), NewestEntryFirst()), limit.GetOr(DefaultAuditLimit))
  }

  function RecentAuditLogs(auditLogs: seq<Doc<AuditRow>>, limit: Option<nat>): (r: seq<AuditView>)
    ensures |r| == |RecentAuditDocs(auditLogs, limit)|
    ensures forall k :: 0 <= k < |r| ==> r[k] == AuditViewOf(RecentAuditDocs(auditLogs, limit)[k])
  {
    var list := RecentAuditDocs(auditLogs, limit);
    seq(|list|, k requires 0 <= k < |list| => AuditViewOf(list[k]))
  }

  /**
   * At most `limit` entries, newest timestamp first, all from the log; an entry left out is
   * no newer than any entry returned, and when the log is shorter than the limit every entry is returned.
   */
  lemma RecentAuditNewest(auditLogs: seq<Doc<AuditRow>>, limit: Option<nat>)
    ensures var r := RecentAuditDocs(auditLogs, limit); var n := limit.GetOr(DefaultAuditLimit);
      && |r| <= n
      && (forall i, j :: 0 <= i < j < |r| ==> r[i].row.timestamp >= r[j].row.timestamp)
      && (forall x :: x in r ==> x in auditLogs)
      && (|auditLogs| <= n ==> multiset(r) == multiset(auditLogs))
      && (forall x :: x in auditLogs && x !in r ==> forall k :: 0 <= k < |r| ==> x.row.timestamp <= r[k].row.timestamp)
  {
    var n := limit.GetOr(DefaultAuditLimit);
    var pool := Reverse(auditLogs);
    TakeSmallest(pool, NewestEntryFirst(), n);
    ReversePermutes(auditLogs);
    forall x | x in auditLogs ensures x in pool {
      assert x in multiset(pool);
    }
  }

  // ---------------------------------------------------------------------------
  // aiInsightsList
  // ---------------------------------------------------------------------------

  datatype InsightView = InsightView(id: Id, shipment: Option<Id>, insightType: string, content: string)

  function TypeIs(t: string): Doc<InsightRow> -> bool {
    (i: Doc<InsightRow>) => i.row.insightType == t
  }

  /** The insights `aiInsightsList` returns: from the `2 * limit` newest, those of the type (an empty type filters nothing), first `limit` (10 by default). */
  function InsightDocs(insights: seq<Doc<InsightRow>>, insightType: Option<string>, limit: Option<nat>): seq<Doc<InsightRow>> {
    var n := limit.GetOr(DefaultInsightsLimit);
    var list := Take(Reverse(insights), n * 2);
    var filtered := if insightType.Some? && insightType.value != [] then Filter(list, TypeIs(insightType.value)) else list;
    Take(filtered, n)
  }

  function AiInsightsList(insights: seq<Doc<InsightRow>>, insightType: Option<string>, limit: Option<nat>): (r: seq<InsightView>)
    ensures |r| == |InsightDocs(insights, insightType, limit)|
  {
    var list := InsightDocs(insights, insightType, limit);
    seq(|list|, k requires 0 <= k < |list| => InsightView(list[k].id, list[k].row.shipment, list[k].row.insightType, list[k].row.content))
  }

  /**
   * At most `limit` insights, each among the `2 * limit` newest; with a non-empty type, all
   * of that type; with an empty type, the same as with none.
   */
  lemma InsightsFiltered(insights: seq<Doc<InsightRow>>, insightType: Option<string>, limit: Option<nat>)
    ensures var r := InsightDocs(insights, insightType, limit); var n := limit.GetOr(DefaultInsightsLimit);
      && |r| <= n
      && (forall x :: x in r ==> x in Take(Reverse(insights), n * 2))
      && (insightType.Some? && insightType.value != [] ==> forall x :: x in r ==> x.row.insightType == insightType.value)
      && (insightType == Some([]) ==> r == InsightDocs(insights, None, limit))
  {
    var n := limit.GetOr(DefaultInsightsLimit);
    var list := Take(Reverse(insights), n * 2);
    if insightType.Some? && insightType.value != [] {
      forall x | x in InsightDocs(insights, insightType, limit) ensures x in list && x.row.insightType == insightType.value {
        FilterMembers(list, TypeIs(insightType.value), x);
      }
    }
  }
}
