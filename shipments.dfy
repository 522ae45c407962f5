/**
 * The shipment list (convex/shipments.ts): every shipment, or, given a policy type, the
 * shipments whose policy has that type.
 */
module Shipments {
  import opened Wrappers
  import opened Types
  import opened Store
  import opened Seqs
  import opened PolicyQueries

  /** The fields `listShipments` returns. */
  datatype ShipmentView = ShipmentView(id: Id, shipmentId: string, facilityId: Id, productType: string, policyId: Id)

  function ViewOf(s: Doc<ShipmentRow>): ShipmentView {
    ShipmentView(s.id, s.row.shipmentId, s.row.facilityId, s.row.productType, s.row.policyId)
  }

  function ViewAll(ss: seq<Doc<ShipmentRow>>): (r: seq<ShipmentView>)
    ensures |r| == |ss|
    ensures forall k :: 0 <= k < |ss| ==> r[k] == ViewOf(ss[k])
  {
    seq(|ss|, k requires 0 <= k < |ss| => ViewOf(ss[k]))
  }

  function PolicyIn(ids: set<Id>): Doc<ShipmentRow> -> bool {
    (s: Doc<ShipmentRow>) => s.row.policyId in ids
  }

  /** The shipments of a policy type (`policyIds.has(s.policyId)`), or all of them. */
  function ShipmentsOfType(shipments: seq<Doc<ShipmentRow>>, policies: seq<Doc<PolicyRow>>,
                           policyType: Option<PolicyType>): seq<Doc<ShipmentRow>> {
    match policyType
    case None => shipments
    case Some(t) => Filter(shipments, PolicyIn(PolicyIdsOfType(policies, t)))
  }

  /** `listShipments`. */
  function ListShipments(shipments: seq<Doc<ShipmentRow>>, policies: seq<Doc<PolicyRow>>,
                         policyType: Option<PolicyType>): seq<ShipmentView> {
    ViewAll(ShipmentsOfType(shipments, policies, policyType))
  }

  /** A shipment has a policy of type `t` when some policy with its `policyId` has that type. */
  predicate OfType(s: Doc<ShipmentRow>, policies: seq<Doc<PolicyRow>>, t: PolicyType) {
    exists i :: 0 <= i < |policies| && policies[i].id == s.row.policyId && policies[i].row.policyType == t
  }

  /**
   * Given a type, exactly the shipments whose policy has that type are listed; the result is
   * an order-preserving subsequence of the table.
   */
  lemma ShipmentsOfTypeExact(shipments: seq<Doc<ShipmentRow>>, policies: seq<Doc<PolicyRow>>, t: PolicyType)
    ensures var sel := ShipmentsOfType(shipments, policies, Some(t));
      && IsSubseq(sel, shipments)
      && (forall s :: s in sel <==> s in shipments && OfType(s, policies, t))
  {
    var ids := PolicyIdsOfType(policies, t);
    FilterSubseq(shipments, PolicyIn(ids));
    forall s ensures s in Filter(shipments, PolicyIn(ids)) <==> s in shipments && OfType(s, policies, t) {
      FilterMembers(shipments, PolicyIn(ids), s);
    }
  }

  /** Without a type every shipment is listed, in order, with its fields copied. */
  lemma ListShipmentsAll(shipments: seq<Doc<ShipmentRow>>, policies: seq<Doc<PolicyRow>>)
    ensures var r := ListShipments(shipments, policies, None);
      |r| == |shipments| && forall k :: 0 <= k < |r| ==> r[k] == ViewOf(shipments[k])
  {
  }

  /** With unique ids, a policy id belongs to the policies of at most one type. */
  lemma OneTypePerPolicy(policies: seq<Doc<PolicyRow>>, nextId: Id, id: Id)
    requires IdsFresh(policies, nextId)
    ensures !(id in PolicyIdsOfType(policies, Food) && id in PolicyIdsOfType(policies, Pharma))
  {
    IdsFreshOrdered(policies, nextId);
  }

  /**
   * When every shipment's policy exists and policy ids are unique, the food list and the
   * pharma list split the shipments between them.
   */
  lemma ShipmentsSplitByType(shipments: seq<Doc<ShipmentRow>>, policies: seq<Doc<PolicyRow>>, nextId: Id)
    requires IdsFresh(policies, nextId)
    requires forall k :: 0 <= k < |shipments| ==> Get(policies, shipments[k].row.policyId).Some?
    ensures multiset(ShipmentsOfType(shipments, policies, Some(Food))) + multiset(ShipmentsOfType(shipments, policies, Some(Pharma)))
            == multiset(shipments)
    ensures |ShipmentsOfType(shipments, policies, Some(Food))| + |ShipmentsOfType(shipments, policies, Some(Pharma))| == |shipments|
  {
    var food := PolicyIn(PolicyIdsOfType(policies, Food));
    var pharma := PolicyIn(PolicyIdsOfType(policies, Pharma));
    var any := (s: Doc<ShipmentRow>) => food(s) || pharma(s);
    forall s ensures !(food(s) && pharma(s)) {
      OneTypePerPolicy(policies, nextId, s.row.policyId);
    }
    FilterUnion(shipments, food, pharma, any);
    forall k | 0 <= k < |shipments| ensures any(shipments[k]) {
      var p := Get(policies, shipments[k].row.policyId).value;
      var i :| 0 <= i < |policies| && policies[i] == p;
    }
    FilterAll(shipments, any);
  }
}
