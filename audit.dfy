/**
 * The append-only audit log (convex/audit.ts): entries are only ever appended, and the one
 * field that may change afterwards is the AI explanation.
 */
module Audit {
  import opened Wrappers
  import opened Store

  /** `createAuditLog`: appends one entry holding exactly the arguments and returns its fresh id. */
  method CreateAuditLog(db: Db, now: int, entry: AuditRow) returns (id: Id)
    requires db.Valid()
    modifies db`auditLogs, db`nextId
    ensures db.Valid()
    ensures id == old(db.nextId) && db.nextId == id + 1
    ensures db.auditLogs == old(db.auditLogs) + [Doc(id, now, entry)]
  {
    id := db.InsertAuditLog(now, entry);
  }

  /** The log after `ctx.db.patch(id, { aiExplanation: text })`. */
  function PatchExplanation(logs: seq<Doc<AuditRow>>, id: Id, text: string): seq<Doc<AuditRow>> {
    seq(|logs|, i requires 0 <= i < |logs| =>
      if logs[i].id == id then logs[i].(row := logs[i].row.(aiExplanation := Some(text))) else logs[i])
  }

  /** An entry with its explanation blanked: every field the patch must leave alone. */
  function WithoutExplanation(d: Doc<AuditRow>): Doc<AuditRow> {
    d.(row := d.row.(aiExplanation := None))
  }

  /**
   * Patching keeps the log's length, changes no field but `aiExplanation`, sets it on the
   * entry with the given id and leaves every other entry as it was.
   */
  lemma PatchOnlyExplanation(logs: seq<Doc<AuditRow>>, id: Id, text: string)
    ensures var r := PatchExplanation(logs, id, text);
      && |r| == |logs|
      && (forall i :: 0 <= i < |r| ==> WithoutExplanation(r[i]) == WithoutExplanation(logs[i]))
      && (forall i :: 0 <= i < |r| && logs[i].id == id ==> r[i].row.aiExplanation == Some(text))
      && (forall i :: 0 <= i < |r| && logs[i].id != id ==> r[i] == logs[i])
  {
  }

  /** Patching the same text twice is the same as patching it once. */
  lemma PatchIdempotent(logs: seq<Doc<AuditRow>>, id: Id, text: string)
    ensures PatchExplanation(PatchExplanation(logs, id, text), id, text) == PatchExplanation(logs, id, text)
  {
  }

  /**
   * `patchAuditExplanation`: sets the explanation of an existing entry; an id with no entry
   * makes the patch throw and the log stays as it was.
   */
  method PatchAuditExplanation(db: Db, auditLogId: Id, text: string) returns (outcome: Outcome<string>)
    requires db.Valid()
    modifies db`auditLogs
    ensures db.Valid()
    ensures outcome.Pass? <==> exists i :: 0 <= i < |old(db.auditLogs)| && old(db.auditLogs)[i].id == auditLogId
    ensures outcome.Pass? ==> db.auditLogs == PatchExplanation(old(db.auditLogs), auditLogId, text)
    ensures outcome.Fail? ==> db.auditLogs == old(db.auditLogs)
  {
    match IndexOfId(db.auditLogs, auditLogId)
    case None =>
      outcome := Fail("nonexistent document");
    case Some(k) =>
      ghost var before := db.auditLogs;
      IdsFreshOrdered(before, db.nextId);
      db.auditLogs := db.auditLogs[k := db.auditLogs[k].(row := db.auditLogs[k].row.(aiExplanation := Some(text)))];
      forall i | 0 <= i < |before| && i != k ensures before[i].id != auditLogId {
        if i < k { assert before[i].id < before[k].id; } else { assert before[k].id < before[i].id; }
      }
      IdsFreshPatched(before, db.auditLogs, db.nextId);
      assert db.auditLogs == PatchExplanation(before, auditLogId, text);
      outcome := Pass;
  }
}
