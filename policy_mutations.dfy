/**
 * Policy writes (convex/policies/mutations.ts): `createPolicy` inserts a policy stamped with
 * the current time; `updatePolicy` patches name, rules and active flag where they are
 * supplied and always refreshes `updatedAt`.
 */
module PolicyMutations {
  import opened Wrappers
  import opened Types
  import opened Store

  /** `createPolicy`: one new policy with the given fields and `updatedAt = now`. */
  method CreatePolicy(db: Db, name: string, policyType: PolicyType, rules: PolicyRules, active: bool,
                      createdBy: Option<Id>, now: int) returns (id: Id)
    requires db.Valid()
    modifies db`policies, db`nextId
    ensures db.Valid()
    ensures id == old(db.nextId) && db.nextId == id + 1
    ensures db.policies == old(db.policies) + [Doc(id, now, PolicyRow(name, policyType, rules, active, createdBy, now))]
  {
    id := db.InsertPolicy(now, PolicyRow(name, policyType, rules, active, createdBy, now));
  }

  /** The patched fields: `updatedAt` always, the others only when supplied. */
  function Updated(row: PolicyRow, name: Option<string>, rules: Option<PolicyRules>, active: Option<bool>, now: int): (r: PolicyRow)
    ensures r.updatedAt == now
    ensures r.policyType == row.policyType && r.createdBy == row.createdBy
    ensures r.name == (if name.Some? then name.value else row.name)
    ensures r.rules == (if rules.Some? then rules.value else row.rules)
    ensures r.active == (if active.Some? then active.value else row.active)
  {
    row.(updatedAt := now, name := name.GetOr(row.name), rules := rules.GetOr(row.rules), active := active.GetOr(row.active))
  }

  /** `ctx.db.patch(id, ...)`: the document with the id gets the new row, every other document is left alone. */
  function Patched(policies: seq<Doc<PolicyRow>>, id: Id, row: PolicyRow): (r: seq<Doc<PolicyRow>>)
    ensures |r| == |policies|
    ensures forall i :: 0 <= i < |policies| ==> r[i].id == policies[i].id && r[i].creationTime == policies[i].creationTime
    ensures forall i :: 0 <= i < |policies| && policies[i].id != id ==> r[i] == policies[i]
    ensures forall i :: 0 <= i < |policies| && policies[i].id == id ==> r[i].row == row
  {
    seq(|policies|, i requires 0 <= i < |policies| => if policies[i].id == id then policies[i].(row := row) else policies[i])
  }

  /**
   * `updatePolicy`: a missing policy fails with "Policy not found" and changes nothing;
   * otherwise the policy is patched and nothing else changes.
   */
  method UpdatePolicy(db: Db, policyId: Id, name: Option<string>, rules: Option<PolicyRules>, active: Option<bool>, now: int)
    returns (outcome: Outcome<string>)
    requires db.Valid()
    modifies db`policies
    ensures db.Valid()
    ensures match Get(old(db.policies), policyId)
      case None => outcome == Fail("Policy not found") && db.policies == old(db.policies)
      case Some(p) => outcome == Pass && db.policies == Patched(old(db.policies), policyId, Updated(p.row, name, rules, active, now))
  {
    var existing := Get(db.policies, policyId);
    if existing.None? {
      return Fail("Policy not found");
    }
    ghost var before := db.policies;
    db.policies := Patched(db.policies, policyId, Updated(existing.value.row, name, rules, active, now));
    IdsFreshPatched(before, db.policies, db.nextId);
    return Pass;
  }

  /**
   * After a successful update the policy with the id carries the supplied fields and the new
   * `updatedAt`, keeps its type, creator, id and creation time, and is still found by its id.
   */
  lemma UpdateEffect(policies: seq<Doc<PolicyRow>>, nextId: Id, policyId: Id, name: Option<string>,
                     rules: Option<PolicyRules>, active: Option<bool>, now: int)
    requires IdsFresh(policies, nextId)
    requires Get(policies, policyId).Some?
    ensures var p := Get(policies, policyId).value;
      var q := Get(Patched(policies, policyId, Updated(p.row, name, rules, active, now)), policyId);
      && q.Some?
      && q.value.id == p.id && q.value.creationTime == p.creationTime
      && q.value.row.updatedAt == now
      && q.value.row.policyType == p.row.policyType && q.value.row.createdBy == p.row.createdBy
      && q.value.row.name == name.GetOr(p.row.name)
      && q.value.row.rules == rules.GetOr(p.row.rules)
      && q.value.row.active == active.GetOr(p.row.active)
  {
    var p := Get(policies, policyId).value;
    var k := IndexOfId(policies, policyId).value;
    var patched := Patched(policies, policyId, Updated(p.row, name, rules, active, now));
    IdsFreshPatched(policies, patched, nextId);
    IndexOfIdUnique(patched, nextId, policyId, k);
  }

  /** An update that supplies nothing only moves `updatedAt`. */
  lemma UpdateNothing(row: PolicyRow, now: int)
    ensures Updated(row, None, None, None, now) == row.(updatedAt := now)
  {
  }
}
