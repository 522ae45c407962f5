/**
 * Policy reads (convex/policies/queries.ts): `listPolicies`, filtered by type and by the
 * active flag, and `getPolicy`. Each returned policy is its document without `createdBy`.
 */
module PolicyQueries {
  import opened Wrappers
  import opened Types
  import opened Store
  import opened Seqs

  /** The fields both queries return. */
  datatype PolicyView = PolicyView(id: Id, creationTime: int, name: string, policyType: PolicyType,
                                   rules: PolicyRules, active: bool, updatedAt: int)

  function ViewOf(p: Doc<PolicyRow>): PolicyView {
    PolicyView(p.id, p.creationTime, p.row.name, p.row.policyType, p.row.rules, p.row.active, p.row.updatedAt)
  }

  function ViewAll(ps: seq<Doc<PolicyRow>>): (r: seq<PolicyView>)
    ensures |r| == |ps|
    ensures forall k :: 0 <= k < |ps| ==> r[k] == ViewOf(ps[k])
  {
    seq(|ps|, k requires 0 <= k < |ps| => ViewOf(ps[k]))
  }

  function TypeIs(t: PolicyType): Doc<PolicyRow> -> bool {
    (p: Doc<PolicyRow>) => p.row.policyType == t
  }

  function IsActive(): Doc<PolicyRow> -> bool {
    (p: Doc<PolicyRow>) => p.row.active
  }

  /** `withIndex("by_type", q => q.eq("type", t))`: the policies of one type, in insertion order. */
  function PoliciesOfType(policies: seq<Doc<PolicyRow>>, t: PolicyType): seq<Doc<PolicyRow>> {
    Filter(policies, TypeIs(t))
  }

  /** The ids of the policies of one type (`new Set(policies.map(p => p._id))`). */
  function PolicyIdsOfType(policies: seq<Doc<PolicyRow>>, t: PolicyType): (r: set<Id>)
    ensures forall id :: id in r <==> exists i :: 0 <= i < |policies| && policies[i].id == id && policies[i].row.policyType == t
  {
    set i | 0 <= i < |policies| && policies[i].row.policyType == t :: policies[i].id
  }

  /** The documents `listPolicies` selects, before projection. */
  function Selected(policies: seq<Doc<PolicyRow>>, policyType: Option<PolicyType>, activeOnly: Option<bool>): seq<Doc<PolicyRow>> {
    var list := match policyType case Some(t) => PoliciesOfType(policies, t) case None => policies;
    if activeOnly == Some(true) then Filter(list, IsActive()) else list
  }

  /** `listPolicies`. */
  function ListPolicies(policies: seq<Doc<PolicyRow>>, policyType: Option<PolicyType>, activeOnly: Option<bool>): seq<PolicyView> {
    ViewAll(Selected(policies, policyType, activeOnly))
  }

  /**
   * A policy is listed exactly when it has the requested type (if one is given) and is
   * active (if `activeOnly` is true); the list keeps the table's order.
   */
  lemma ListPoliciesExact(policies: seq<Doc<PolicyRow>>, policyType: Option<PolicyType>, activeOnly: Option<bool>)
    ensures var sel := Selected(policies, policyType, activeOnly);
      && IsSubseq(sel, policies)
      && (forall p :: p in sel <==>
            p in policies && (policyType.Some? ==> p.row.policyType == policyType.value)
            && (activeOnly == Some(true) ==> p.row.active))
      && ListPolicies(policies, policyType, activeOnly) == ViewAll(sel)
  {
    var list := match policyType case Some(t) => PoliciesOfType(policies, t) case None => policies;
    var sel := Selected(policies, policyType, activeOnly);
    forall p ensures p in list <==> p in policies && (policyType.Some? ==> p.row.policyType == policyType.value) {
      if policyType.Some? {
        FilterMembers(policies, TypeIs(policyType.value), p);
      }
    }
    forall p ensures p in sel <==> p in list && (activeOnly == Some(true) ==> p.row.active) {
      if activeOnly == Some(true) {
        FilterMembers(list, IsActive(), p);
      }
    }
    if policyType.Some? {
      FilterSubseq(policies, TypeIs(policyType.value));
    } else {
      FilterAll(policies, (p: Doc<PolicyRow>) => true);
      FilterSubseq(policies, (p: Doc<PolicyRow>) => true);
    }
    if activeOnly == Some(true) {
      FilterSubseq(list, IsActive());
      SubseqTrans(sel, list, policies);
    }
  }

  /** Without filters every policy is listed, in order, with its fields copied. */
  lemma ListPoliciesAll(policies: seq<Doc<PolicyRow>>, activeOnly: Option<bool>)
    requires activeOnly != Some(true)
    ensures var r := ListPolicies(policies, None, activeOnly);
      |r| == |policies| && forall k :: 0 <= k < |r| ==> r[k] == ViewOf(policies[k])
  {
  }

  /** `getPolicy`: null exactly when no policy has the id; otherwise that policy's fields. */
  function GetPolicy(policies: seq<Doc<PolicyRow>>, policyId: Id): (r: Option<PolicyView>)
    ensures r.None? <==> forall i :: 0 <= i < |policies| ==> policies[i].id != policyId
    ensures r.Some? ==> exists i :: 0 <= i < |policies| && policies[i].id == policyId && r.value == ViewOf(policies[i])
  {
    match Get(policies, policyId)
    case None => None
    case Some(p) => Some(ViewOf(p))
  }
}
