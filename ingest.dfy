/**
 * Batch ingestion (convex/ingestion/mutations.ts): resolve every shipment id of the batch to
 * a shipment document, creating the missing ones, insert one reading per row grouped by
 * shipment, and queue one detection pass per shipment.
 */
module Ingest {
  import opened Wrappers
  import opened Store
  import opened Seqs
  import opened Parse

  /** The distinct shipment ids of the rows, in order of first appearance (the `Map`'s key order). */
  function Keys(rows: seq<NormalizedRow>): seq<string> {
    if rows == [] then []
    else
      var prev := Keys(rows[..|rows| - 1]);
      var key := rows[|rows| - 1].shipmentId;
      if key in prev then prev else prev + [key]
  }

  /** No shipment id is a key twice. */
  lemma {:induction false} KeysDistinct(rows: seq<NormalizedRow>)
    ensures Distinct(Keys(rows))
  {
    if rows != [] {
      var prev := Keys(rows[..|rows| - 1]);
      var key := rows[|rows| - 1].shipmentId;
      KeysDistinct(rows[..|rows| - 1]);
      if key !in prev {
        var ks := prev + [key];
        assert Keys(rows) == ks;
        forall i, j | 0 <= i < j < |ks| ensures ks[i] != ks[j] {
          if j == |prev| {
            assert ks[i] == prev[i] && prev[i] in prev;
          } else {
            assert ks[i] == prev[i] && ks[j] == prev[j];
          }
        }
      } else {
        assert Keys(rows) == prev;
      }
    }
  }

  /** A shipment id is a key exactly when some row carries it. */
  lemma {:induction false} KeysMembers(rows: seq<NormalizedRow>, k: string)
    ensures k in Keys(rows) <==> exists i :: 0 <= i < |rows| && rows[i].shipmentId == k
  {
    if rows != [] {
      var init := rows[..|rows| - 1];
      KeysMembers(init, k);
      if exists i :: 0 <= i < |rows| && rows[i].shipmentId == k {
        var i :| 0 <= i < |rows| && rows[i].shipmentId == k;
        if i < |init| {
          assert init[i] == rows[i];
        }
      }
      if k in Keys(init) {
        var i :| 0 <= i < |init| && init[i].shipmentId == k;
        assert rows[i] == init[i];
      }
    }
  }

  /** The row belongs to shipment id `key`. */
  function IdIs(key: string): NormalizedRow -> bool {
    (r: NormalizedRow) => r.shipmentId == key
  }

  /** The row belongs to one of the shipment ids `keys`. */
  function IdIn(keys: seq<string>): NormalizedRow -> bool {
    (r: NormalizedRow) => r.shipmentId in keys
  }

  /** The rows of one shipment id, in input order. */
  function Group(rows: seq<NormalizedRow>, key: string): seq<NormalizedRow> {
    Filter(rows, IdIs(key))
  }

  /** The groups of the given keys, one after another. */
  function Concat(rows: seq<NormalizedRow>, keys: seq<string>): seq<NormalizedRow> {
    if keys == [] then [] else Concat(rows, keys[..|keys| - 1]) + Group(rows, keys[|keys| - 1])
  }

  /** The rows in the order their readings are inserted: grouped by shipment id. */
  function Grouped(rows: seq<NormalizedRow>): seq<NormalizedRow> {
    Concat(rows, Keys(rows))
  }

  /** The `by_shipment_id` lookup: the oldest shipment document with this external id. */
  function FindShipment(shipments: seq<Doc<ShipmentRow>>, key: string): Option<Id> {
    if shipments == [] then None
    else
      var r := FindShipment(shipments[..|shipments| - 1], key);
      if r.Some? then r
      else if shipments[|shipments| - 1].row.shipmentId == key then Some(shipments[|shipments| - 1].id)
      else None
  }

  /** The lookup finds the first document with the id, and finds nothing only when no document has it. */
  lemma {:induction false} FindShipmentSpec(shipments: seq<Doc<ShipmentRow>>, key: string)
    ensures var r := FindShipment(shipments, key);
      && (r.Some? ==> exists i :: 0 <= i < |shipments| && shipments[i].row.shipmentId == key && shipments[i].id == r.value
                                  && forall j :: 0 <= j < i ==> shipments[j].row.shipmentId != key)
      && (r.None? ==> forall i :: 0 <= i < |shipments| ==> shipments[i].row.shipmentId != key)
  {
    if shipments != [] {
      var init := shipments[..|shipments| - 1];
      FindShipmentSpec(init, key);
      assert forall i :: 0 <= i < |init| ==> init[i] == shipments[i];
    }
  }

  /** The document id a shipment id resolves to (0 when it resolves to none, which ingestion never leaves). */
  function ShipmentDocId(shipments: seq<Doc<ShipmentRow>>, key: string): Id {
    FindShipment(shipments, key).GetOr(0)
  }

  /**
   * The shipments the batch creates: one for each shipment id that no shipment has yet, at
   * its first row, with that row's product type and the batch's facility and policy.
   */
  function NewShipments(existing: seq<Doc<ShipmentRow>>, rows: seq<NormalizedRow>, facilityId: Id, policyId: Id,
                        nextId: Id, now: int): (created: seq<Doc<ShipmentRow>>)
    ensures |created| <= |rows|
  {
    if rows == [] then []
    else
      var prev := NewShipments(existing, rows[..|rows| - 1], facilityId, policyId, nextId, now);
      var row := rows[|rows| - 1];
      if FindShipment(existing + prev, row.shipmentId).Some? then prev
      else prev + [Doc(nextId + |prev|, now, ShipmentRow(row.shipmentId, facilityId, row.productType, policyId))]
  }

  /** The readings inserted for the grouped rows, with consecutive ids from `start`. */
  function NewReadings(grouped: seq<NormalizedRow>, shipments: seq<Doc<ShipmentRow>>, start: Id, now: int): seq<Doc<ReadingRow>> {
    seq(|grouped|, i requires 0 <= i < |grouped| =>
      Doc(start + i, now, ReadingRow(ShipmentDocId(shipments, grouped[i].shipmentId), grouped[i].timestamp,
                                     grouped[i].temperature, grouped[i].source)))
  }

  /** The documents the shipment ids resolve to, in order. */
  function DocIdsOf(keys: seq<string>, shipments: seq<Doc<ShipmentRow>>): seq<Id> {
    seq(|keys|, j requires 0 <= j < |keys| => ShipmentDocId(shipments, keys[j]))
  }

  /** One detection pass per document, in order. */
  function DetectionTasks(docIds: seq<Id>): seq<Task> {
    seq(|docIds|, j requires 0 <= j < |docIds| => RunDetection(docIds[j]))
  }

  lemma FindShipmentAppend(shipments: seq<Doc<ShipmentRow>>, d: Doc<ShipmentRow>, key: string)
    ensures FindShipment(shipments, key).Some? ==> FindShipment(shipments + [d], key) == FindShipment(shipments, key)
    ensures FindShipment(shipments, key).None? && d.row.shipmentId == key ==> FindShipment(shipments + [d], key) == Some(d.id)
  {
    assert (shipments + [d])[..|shipments|] == shipments;
  }

  lemma GroupAppend(rows: seq<NormalizedRow>, r: NormalizedRow, key: string)
    ensures Group(rows + [r], key) == Group(rows, key) + (if r.shipmentId == key then [r] else [])
  {
    assert (rows + [r])[..|rows|] == rows;
  }

  lemma NewReadingsAppend(grouped: seq<NormalizedRow>, r: NormalizedRow, shipments: seq<Doc<ShipmentRow>>, start: Id, now: int)
    ensures NewReadings(grouped + [r], shipments, start, now)
            == NewReadings(grouped, shipments, start, now)
               + [Doc(start + |grouped|, now, ReadingRow(ShipmentDocId(shipments, r.shipmentId), r.timestamp, r.temperature, r.source))]
  {
  }

  /** Inserting a shipment with a new external id resolves that id to it and keeps every earlier resolution. */
  lemma ResolveByInsert(shipments: seq<Doc<ShipmentRow>>, docIds: map<string, Id>, d: Doc<ShipmentRow>)
    requires FindShipment(shipments, d.row.shipmentId).None?
    requires forall k :: k in docIds ==> FindShipment(shipments, k) == Some(docIds[k])
    ensures forall k :: k in docIds ==> FindShipment(shipments + [d], k) == Some(docIds[k])
    ensures FindShipment(shipments + [d], d.row.shipmentId) == Some(d.id)
  {
    forall k | k in docIds ensures FindShipment(shipments + [d], k) == Some(docIds[k]) {
      FindShipmentAppend(shipments, d, k);
    }
    FindShipmentAppend(shipments, d, d.row.shipmentId);
  }

  lemma NewShipmentsStep(existing: seq<Doc<ShipmentRow>>, done: seq<NormalizedRow>, row: NormalizedRow,
                         facilityId: Id, policyId: Id, start: Id, now: int)
    ensures var prev := NewShipments(existing, done, facilityId, policyId, start, now);
      NewShipments(existing, done + [row], facilityId, policyId, start, now)
      == if FindShipment(existing + prev, row.shipmentId).Some? then prev
         else prev + [Doc(start + |prev|, now, ShipmentRow(row.shipmentId, facilityId, row.productType, policyId))]
  {
    assert (done + [row])[..|done|] == done;
  }

  lemma KeysStep(done: seq<NormalizedRow>, row: NormalizedRow)
    ensures Keys(done + [row]) == if row.shipmentId in Keys(done) then Keys(done) else Keys(done) + [row.shipmentId]
  {
    assert (done + [row])[..|done|] == done;
  }

  // ---------------------------------------------------------------------------
  // Properties of the batch
  // ---------------------------------------------------------------------------

  /** The groups of distinct keys hold, up to order, exactly the rows with one of those keys. */
  lemma {:induction false} ConcatPermutes(rows: seq<NormalizedRow>, keys: seq<string>)
    requires Distinct(keys)
    ensures multiset(Concat(rows, keys)) == multiset(Filter(rows, IdIn(keys)))
  {
    if keys == [] {
      FilterNone(rows, IdIn(keys));
    } else {
      var init := keys[..|keys| - 1];
      var last := keys[|keys| - 1];
      assert keys == init + [last];
      assert Distinct(init) by {
        forall i, j | 0 <= i < j < |init| ensures init[i] != init[j] {
          assert init[i] == keys[i] && init[j] == keys[j];
        }
      }
      forall i | 0 <= i < |init| ensures init[i] != last {
        assert init[i] == keys[i];
      }
      ConcatPermutes(rows, init);
      FilterUnion(rows, IdIn(init), IdIs(last), IdIn(keys));
    }
  }

  /** One reading per row: the grouped order is a permutation of the batch. */
  lemma GroupedPermutes(rows: seq<NormalizedRow>)
    ensures multiset(Grouped(rows)) == multiset(rows)
    ensures |Grouped(rows)| == |rows|
  {
    KeysDistinct(rows);
    ConcatPermutes(rows, Keys(rows));
    forall i | 0 <= i < |rows| ensures IdIn(Keys(rows))(rows[i]) {
      KeysMembers(rows, rows[i].shipmentId);
    }
    FilterAll(rows, IdIn(Keys(rows)));
    assert |Grouped(rows)| == |multiset(Grouped(rows))|;
  }

  /** A lookup that succeeds on a table keeps its answer when documents are appended. */
  lemma {:induction false} FindShipmentPrefix(a: seq<Doc<ShipmentRow>>, b: seq<Doc<ShipmentRow>>, key: string)
    requires FindShipment(a, key).Some?
    ensures FindShipment(a + b, key) == FindShipment(a, key)
  {
    if b != [] {
      var init := b[..|b| - 1];
      FindShipmentPrefix(a, init, key);
      assert a + b == (a + init) + [b[|b| - 1]];
      FindShipmentAppend(a + init, b[|b| - 1], key);
    } else {
      assert a + b == a;
    }
  }

  /** Created shipments take consecutive fresh ids, the batch's time, and the batch's facility and policy. */
  lemma {:induction false} NewShipmentsShape(existing: seq<Doc<ShipmentRow>>, rows: seq<NormalizedRow>,
                                             facilityId: Id, policyId: Id, nextId: Id, now: int)
    ensures var c := NewShipments(existing, rows, facilityId, policyId, nextId, now);
      forall j :: 0 <= j < |c| ==> c[j].id == nextId + j && c[j].creationTime == now
                                    && c[j].row.facilityId == facilityId && c[j].row.policyId == policyId
  {
    if rows != [] {
      var init := rows[..|rows| - 1];
      NewShipmentsShape(existing, init, facilityId, policyId, nextId, now);
      NewShipmentsStep(existing, init, rows[|rows| - 1], facilityId, policyId, nextId, now);
      assert rows == init + [rows[|rows| - 1]];
    }
  }

  /**
   * A shipment is created only for an id that no existing shipment carries, and at most once
   * per id.
   */
  lemma {:induction false} NewShipmentsNew(existing: seq<Doc<ShipmentRow>>, rows: seq<NormalizedRow>,
                                           facilityId: Id, policyId: Id, nextId: Id, now: int)
    ensures var c := NewShipments(existing, rows, facilityId, policyId, nextId, now);
      && (forall j, i :: 0 <= j < |c| && 0 <= i < |existing| ==> existing[i].row.shipmentId != c[j].row.shipmentId)
      && (forall i, j :: 0 <= i < j < |c| ==> c[i].row.shipmentId != c[j].row.shipmentId)
  {
    if rows != [] {
      var init := rows[..|rows| - 1];
      var row := rows[|rows| - 1];
      var prev := NewShipments(existing, init, facilityId, policyId, nextId, now);
      NewShipmentsNew(existing, init, facilityId, policyId, nextId, now);
      NewShipmentsStep(existing, init, row, facilityId, policyId, nextId, now);
      assert rows == init + [row];
      var all := existing + prev;
      if FindShipment(all, row.shipmentId).None? {
        FindShipmentSpec(all, row.shipmentId);
        var c := NewShipments(existing, rows, facilityId, policyId, nextId, now);
        assert c == prev + [Doc(nextId + |prev|, now, ShipmentRow(row.shipmentId, facilityId, row.productType, policyId))];
        forall i | 0 <= i < |existing| ensures existing[i].row.shipmentId != row.shipmentId {
          assert all[i] == existing[i];
        }
        forall i | 0 <= i < |prev| ensures prev[i].row.shipmentId != row.shipmentId {
          assert all[|existing| + i] == prev[i];
        }
      }
    }
  }

  /** After the batch, every row's shipment id resolves to some shipment document. */
  lemma {:induction false} NewShipmentsResolve(existing: seq<Doc<ShipmentRow>>, rows: seq<NormalizedRow>,
                                               facilityId: Id, policyId: Id, nextId: Id, now: int)
    ensures var all := existing + NewShipments(existing, rows, facilityId, policyId, nextId, now);
      forall i :: 0 <= i < |rows| ==> FindShipment(all, rows[i].shipmentId).Some?
  {
    if rows != [] {
      var init := rows[..|rows| - 1];
      var row := rows[|rows| - 1];
      var prev := NewShipments(existing, init, facilityId, policyId, nextId, now);
      NewShipmentsResolve(existing, init, facilityId, policyId, nextId, now);
      var before := existing + prev;
      if FindShipment(before, row.shipmentId).None? {
        var d := Doc(nextId + |prev|, now, ShipmentRow(row.shipmentId, facilityId, row.productType, policyId));
        assert existing + (prev + [d]) == before + [d];
        forall i | 0 <= i < |rows| ensures FindShipment(before + [d], rows[i].shipmentId).Some? {
          FindShipmentAppend(before, d, rows[i].shipmentId);
          if i < |init| {
            assert rows[i] == init[i];
          }
        }
      } else {
        forall i | 0 <= i < |init| ensures FindShipment(before, rows[i].shipmentId).Some? {
          assert rows[i] == init[i];
        }
      }
    }
  }

  /**
   * A created shipment takes the product type of the first row with its id: a row with that
   * id exists, and no earlier row has it.
   */
  lemma {:induction false} NewShipmentFirstRow(existing: seq<Doc<ShipmentRow>>, rows: seq<NormalizedRow>,
                                               facilityId: Id, policyId: Id, nextId: Id, now: int, j: nat)
    requires j < |NewShipments(existing, rows, facilityId, policyId, nextId, now)|
    ensures var c := NewShipments(existing, rows, facilityId, policyId, nextId, now);
      exists i :: 0 <= i < |rows| && rows[i].shipmentId == c[j].row.shipmentId && rows[i].productType == c[j].row.productType
                  && forall m :: 0 <= m < i ==> rows[m].shipmentId != rows[i].shipmentId
  {
    var init := rows[..|rows| - 1];
    var row := rows[|rows| - 1];
    var prev := NewShipments(existing, init, facilityId, policyId, nextId, now);
    var c := NewShipments(existing, rows, facilityId, policyId, nextId, now);
    NewShipmentsStep(existing, init, row, facilityId, policyId, nextId, now);
    assert rows == init + [row];
    if j < |prev| {
      NewShipmentFirstRow(existing, init, facilityId, policyId, nextId, now, j);
      var i :| 0 <= i < |init| && init[i].shipmentId == prev[j].row.shipmentId && init[i].productType == prev[j].row.productType
               && forall m :: 0 <= m < i ==> init[m].shipmentId != init[i].shipmentId;
      assert c[j] == prev[j];
      assert rows[i] == init[i];
      forall m | 0 <= m < i ensures rows[m].shipmentId != rows[i].shipmentId {
        assert rows[m] == init[m];
      }
    } else {
      var i := |rows| - 1;
      NewShipmentsResolve(existing, init, facilityId, policyId, nextId, now);
      forall m | 0 <= m < i ensures rows[m].shipmentId != rows[i].shipmentId {
        assert rows[m] == init[m];
      }
      assert c[j].row.shipmentId == rows[i].shipmentId && c[j].row.productType == rows[i].productType;
    }
  }

  /** Distinct ids that all resolve in a table with fresh ids resolve to distinct documents. */
  lemma ResolvedDistinct(keys: seq<string>, shipments: seq<Doc<ShipmentRow>>, n: Id)
    requires IdsFresh(shipments, n)
    requires Distinct(keys)
    requires forall j :: 0 <= j < |keys| ==> FindShipment(shipments, keys[j]).Some?
    ensures Distinct(DocIdsOf(keys, shipments))
  {
    IdsFreshOrdered(shipments, n);
    var ids := DocIdsOf(keys, shipments);
    forall i, j | 0 <= i < j < |ids| ensures ids[i] != ids[j] {
      FindShipmentSpec(shipments, keys[i]);
      FindShipmentSpec(shipments, keys[j]);
      var p :| 0 <= p < |shipments| && shipments[p].row.shipmentId == keys[i] && shipments[p].id == ids[i];
      var q :| 0 <= q < |shipments| && shipments[q].row.shipmentId == keys[j] && shipments[q].id == ids[j];
      assert keys[i] != keys[j];
    }
  }

  /**
   * Detection is queued once per distinct shipment id of the batch: the documents of the keys
   * are distinct, and there is one per key.
   */
  lemma IngestDetectsEachOnce(existing: seq<Doc<ShipmentRow>>, rows: seq<NormalizedRow>,
                              facilityId: Id, policyId: Id, nextId: Id, now: int, n: Id)
    requires IdsFresh(existing + NewShipments(existing, rows, facilityId, policyId, nextId, now), n)
    ensures var ids := DocIdsOf(Keys(rows), existing + NewShipments(existing, rows, facilityId, policyId, nextId, now));
      |ids| == |Keys(rows)| && Distinct(ids)
  {
    var all := existing + NewShipments(existing, rows, facilityId, policyId, nextId, now);
    var keys := Keys(rows);
    KeysDistinct(rows);
    NewShipmentsResolve(existing, rows, facilityId, policyId, nextId, now);
    forall j | 0 <= j < |keys| ensures FindShipment(all, keys[j]).Some? {
      KeysMembers(rows, keys[j]);
    }
    ResolvedDistinct(keys, all, n);
  }

  /** A row whose id is already resolved changes nothing. */
  lemma ResolvedSeen(done: seq<NormalizedRow>, row: NormalizedRow, docIds: map<string, Id>, shipments: seq<Doc<ShipmentRow>>)
    requires Resolved(done, docIds, shipments)
    requires row.shipmentId in docIds
    ensures Resolved(done + [row], docIds, shipments)
  {
    KeysStep(done, row);
  }

  /** A new id that the index finds resolves to what it finds. */
  lemma ResolvedFound(done: seq<NormalizedRow>, row: NormalizedRow, docIds: map<string, Id>, shipments: seq<Doc<ShipmentRow>>)
    requires Resolved(done, docIds, shipments)
    requires row.shipmentId !in docIds && FindShipment(shipments, row.shipmentId).Some?
    ensures Resolved(done + [row], docIds[row.shipmentId := FindShipment(shipments, row.shipmentId).value], shipments)
  {
    KeysStep(done, row);
  }

  /** A new id that the index does not find resolves to the shipment inserted for it. */
  lemma ResolvedInserted(done: seq<NormalizedRow>, row: NormalizedRow, docIds: map<string, Id>,
                         shipments: seq<Doc<ShipmentRow>>, d: Doc<ShipmentRow>)
    requires Resolved(done, docIds, shipments)
    requires row.shipmentId !in docIds && FindShipment(shipments, row.shipmentId).None?
    requires d.row.shipmentId == row.shipmentId
    ensures Resolved(done + [row], docIds[row.shipmentId := d.id], shipments + [d])
  {
    KeysStep(done, row);
    ResolveByInsert(shipments, docIds, d);
  }

  /** One row of the first loop: resolve its shipment id unless it is already resolved. */
  method ResolveRow(db: Db, row: NormalizedRow, docIds: map<string, Id>, ghost existing: seq<Doc<ShipmentRow>>,
                    ghost done: seq<NormalizedRow>, facilityId: Id, policyId: Id, ghost start: Id, now: int)
    returns (resolved: map<string, Id>)
    requires db.Valid()
    requires db.shipments == existing + NewShipments(existing, done, facilityId, policyId, start, now)
    requires db.nextId == start + |NewShipments(existing, done, facilityId, policyId, start, now)|
    requires Resolved(done, docIds, db.shipments)
    modifies db`shipments, db`nextId
    ensures db.Valid()
    ensures db.shipments == existing + NewShipments(existing, done + [row], facilityId, policyId, start, now)
    ensures db.nextId == start + |NewShipments(existing, done + [row], facilityId, policyId, start, now)|
    ensures Resolved(done + [row], resolved, db.shipments)
  {
    var key := row.shipmentId;
    NewShipmentsStep(existing, done, row, facilityId, policyId, start, now);
    resolved := docIds;
    if key in docIds {
      ResolvedSeen(done, row, docIds, db.shipments);
      assert FindShipment(db.shipments, key).Some?;
    } else {
      var found := FindShipment(db.shipments, key);
      if found.Some? {
        ResolvedFound(done, row, docIds, db.shipments);
        resolved := docIds[key := found.value];
      } else {
        var d := Doc(db.nextId, now, ShipmentRow(key, facilityId, row.productType, policyId));
        ResolvedInserted(done, row, docIds, db.shipments, d);
        var _ := db.InsertShipment(now, d.row);
        resolved := docIds[key := d.id];
      }
    }
  }

  /** `keys` and `byShipment` after the first loop has seen `done`: the ids in first-appearance order, each with its rows. */
  ghost predicate Collected(done: seq<NormalizedRow>, keys: seq<string>, byShipment: map<string, seq<NormalizedRow>>) {
    && keys == Keys(done)
    && (forall k :: k in byShipment <==> k in keys)
    && (forall k :: k in byShipment ==> byShipment[k] == Group(done, k))
  }

  /** `docIds` after the first loop has seen `done`: every id seen so far, resolved by the index lookup. */
  ghost predicate Resolved(done: seq<NormalizedRow>, docIds: map<string, Id>, shipments: seq<Doc<ShipmentRow>>) {
    && (forall k :: k in docIds <==> k in Keys(done))
    && (forall k :: k in docIds ==> FindShipment(shipments, k) == Some(docIds[k]))
  }

  /** One row of the first loop, on the side of `byShipment`: append the row to its shipment id's list. */
  method Collect(keys: seq<string>, byShipment: map<string, seq<NormalizedRow>>, ghost done: seq<NormalizedRow>,
                 row: NormalizedRow)
    returns (keys': seq<string>, byShipment': map<string, seq<NormalizedRow>>)
    requires Collected(done, keys, byShipment)
    ensures Collected(done + [row], keys', byShipment')
  {
    var key := row.shipmentId;
    KeysStep(done, row);
    forall k | k in byShipment || k == key
      ensures Group(done + [row], k) == Group(done, k) + (if key == k then [row] else [])
    {
      GroupAppend(done, row, k);
    }
    keys', byShipment' := keys, byShipment;
    if key !in byShipment {
      assert Group(done, key) == [] by {
        if Group(done, key) != [] {
          var x := Group(done, key)[0];
          FilterMembers(done, IdIs(key), x);
          var i :| 0 <= i < |done| && done[i] == x;
          KeysMembers(done, key);
        }
      }
      byShipment' := byShipment'[key := []];
      keys' := keys' + [key];
    }
    byShipment' := byShipment'[key := byShipment'[key] + [row]];
  }

  /**
   * The first loop: walk the rows, resolve each new shipment id to the oldest shipment with
   * that id or to a freshly inserted one, and collect the rows per shipment id.
   */
  method ResolveShipments(db: Db, rows: seq<NormalizedRow>, facilityId: Id, policyId: Id, now: int)
    returns (docIds: map<string, Id>, keys: seq<string>, byShipment: map<string, seq<NormalizedRow>>)
    requires db.Valid()
    modifies db`shipments, db`nextId
    ensures db.Valid()
    ensures db.shipments == old(db.shipments) + NewShipments(old(db.shipments), rows, facilityId, policyId, old(db.nextId), now)
    ensures db.nextId == old(db.nextId) + |NewShipments(old(db.shipments), rows, facilityId, policyId, old(db.nextId), now)|
    ensures Collected(rows, keys, byShipment)
    ensures Resolved(rows, docIds, db.shipments)
  {
    docIds, keys, byShipment := map[], [], map[];
    ghost var existing := db.shipments;
    ghost var start := db.nextId;
    var i := 0;
    while i < |rows|
      invariant 0 <= i <= |rows|
      invariant db.Valid()
      invariant db.shipments == existing + NewShipments(existing, rows[..i], facilityId, policyId, start, now)
      invariant db.nextId == start + |NewShipments(existing, rows[..i], facilityId, policyId, start, now)|
      invariant Collected(rows[..i], keys, byShipment)
      invariant Resolved(rows[..i], docIds, db.shipments)
    {
      var row := rows[i];
      PrefixStep(rows, i);
      docIds := ResolveRow(db, row, docIds, existing, rows[..i], facilityId, policyId, start, now);
      keys, byShipment := Collect(keys, byShipment, rows[..i], row);
      i := i + 1;
    }
    assert rows[..i] == rows;
  }

  /** One round of the inner loop: the next row of the group becomes the next reading. */
  lemma GroupStep(done: seq<NormalizedRow>, group: seq<NormalizedRow>, m: nat, shipments: seq<Doc<ShipmentRow>>,
                  start: Id, now: int)
    requires m < |group|
    ensures var row := group[m];
      NewReadings(done + group[..m + 1], shipments, start, now)
      == NewReadings(done + group[..m], shipments, start, now)
         + [Doc(start + |done| + m, now, ReadingRow(ShipmentDocId(shipments, row.shipmentId), row.timestamp, row.temperature, row.source))]
  {
    NewReadingsAppend(done + group[..m], group[m], shipments, start, now);
    assert done + group[..m + 1] == (done + group[..m]) + [group[m]];
  }

  /** The inner loop of the second: insert one shipment's rows as readings of its document. */
  method InsertGroup(db: Db, ghost before: seq<Doc<ReadingRow>>, ghost done: seq<NormalizedRow>,
                     group: seq<NormalizedRow>, shipDocId: Id, ghost start: Id, now: int)
    requires db.Valid()
    requires db.readings == before + NewReadings(done, db.shipments, start, now)
    requires db.nextId == start + |done|
    requires forall m :: 0 <= m < |group| ==> ShipmentDocId(db.shipments, group[m].shipmentId) == shipDocId
    modifies db`readings, db`nextId
    ensures db.Valid()
    ensures db.readings == before + NewReadings(done + group, db.shipments, start, now)
    ensures db.nextId == start + |done + group|
  {
    var m := 0;
    while m < |group|
      invariant 0 <= m <= |group|
      invariant db.Valid()
      invariant db.readings == before + NewReadings(done + group[..m], db.shipments, start, now)
      invariant db.nextId == start + |done| + m
    {
      var row := group[m];
      GroupStep(done, group, m, db.shipments, start, now);
      var _ := db.InsertReading(now, ReadingRow(shipDocId, row.timestamp, row.temperature, row.source));
      m := m + 1;
    }
    assert group[..m] == group;
  }

  /**
   * One round of the second loop: the `j`-th shipment id has a group and a document, every row
   * of the group resolves to that document, and the round extends the inserted rows by the
   * group and the detection list by the document.
   */
  lemma InsertStep(rows: seq<NormalizedRow>, keys: seq<string>, byShipment: map<string, seq<NormalizedRow>>,
                   docIds: map<string, Id>, shipments: seq<Doc<ShipmentRow>>, j: nat)
    requires Collected(rows, keys, byShipment)
    requires Resolved(rows, docIds, shipments)
    requires j < |keys|
    ensures keys[j] in byShipment && keys[j] in docIds
    ensures forall m :: 0 <= m < |byShipment[keys[j]]| ==> ShipmentDocId(shipments, byShipment[keys[j]][m].shipmentId) == docIds[keys[j]]
    ensures Concat(rows, keys[..j + 1]) == Concat(rows, keys[..j]) + byShipment[keys[j]]
    ensures DocIdsOf(keys[..j + 1], shipments) == DocIdsOf(keys[..j], shipments) + [docIds[keys[j]]]
  {
    var key := keys[j];
    var group := Group(rows, key);
    assert byShipment[key] == group;
    forall m | 0 <= m < |group| ensures group[m].shipmentId == key {
      assert IdIs(key)(group[m]);
    }
    assert keys[..j + 1][..j] == keys[..j];
  }

  /**
   * The second loop: for each shipment id in order of first appearance, insert its rows as
   * readings of its shipment document, and remember the document for detection.
   */
  method InsertReadings(db: Db, ghost rows: seq<NormalizedRow>, keys: seq<string>, byShipment: map<string, seq<NormalizedRow>>,
                        docIds: map<string, Id>, now: int)
    returns (docIdsToDetect: seq<Id>)
    requires db.Valid()
    requires Collected(rows, keys, byShipment)
    requires Resolved(rows, docIds, db.shipments)
    modifies db`readings, db`nextId
    ensures db.Valid()
    ensures db.readings == old(db.readings) + NewReadings(Concat(rows, keys), db.shipments, old(db.nextId), now)
    ensures db.nextId == old(db.nextId) + |Concat(rows, keys)|
    ensures docIdsToDetect == DocIdsOf(keys, db.shipments)
  {
    ghost var before := db.readings;
    ghost var start := db.nextId;
    docIdsToDetect := [];
    var j := 0;
    while j < |keys|
      invariant 0 <= j <= |keys|
      invariant db.Valid()
      invariant db.readings == before + NewReadings(Concat(rows, keys[..j]), db.shipments, start, now)
      invariant db.nextId == start + |Concat(rows, keys[..j])|
      invariant docIdsToDetect == DocIdsOf(keys[..j], db.shipments)
    {
      var key := keys[j];
      var group := byShipment[key];
      var shipDocId := docIds[key];
      InsertStep(rows, keys, byShipment, docIds, db.shipments, j);
      InsertGroup(db, before, Concat(rows, keys[..j]), group, shipDocId, start, now);
      docIdsToDetect := docIdsToDetect + [shipDocId];
      j := j + 1;
    }
    assert keys[..j] == keys;
  }

  /** The third loop: queue one detection pass per shipment document, in order. */
  method QueueDetections(db: Db, docIdsToDetect: seq<Id>)
    requires db.Valid()
    modifies db`tasks
    ensures db.Valid()
    ensures db.tasks == old(db.tasks) + DetectionTasks(docIdsToDetect)
  {
    var j := 0;
    while j < |docIdsToDetect|
      invariant 0 <= j <= |docIdsToDetect|
      invariant db.Valid()
      invariant db.tasks == old(db.tasks) + DetectionTasks(docIdsToDetect[..j])
    {
      PrefixStep(docIdsToDetect, j);
      db.Schedule(RunDetection(docIdsToDetect[j]));
      j := j + 1;
    }
    assert docIdsToDetect[..j] == docIdsToDetect;
  }

  /**
   * `ingestReadings`: an empty batch changes nothing; otherwise the missing shipments are
   * created, every row becomes one reading of its shipment (grouped by shipment id) and one
   * detection pass is queued per distinct shipment id.
   */
  method IngestReadings(db: Db, rows: seq<NormalizedRow>, facilityId: Id, policyId: Id, now: int)
    requires db.Valid()
    modifies db`shipments, db`readings, db`tasks, db`nextId
    ensures db.Valid()
    ensures var created := NewShipments(old(db.shipments), rows, facilityId, policyId, old(db.nextId), now);
      && db.shipments == old(db.shipments) + created
      && db.readings == old(db.readings) + NewReadings(Grouped(rows), db.shipments, old(db.nextId) + |created|, now)
      && db.tasks == old(db.tasks) + DetectionTasks(DocIdsOf(Keys(rows), db.shipments))
      && db.nextId == old(db.nextId) + |created| + |Grouped(rows)|
    ensures rows == [] ==> unchanged(db`shipments, db`readings, db`tasks, db`nextId)
    ensures Distinct(DocIdsOf(Keys(rows), db.shipments))
  {
    if |rows| == 0 {
      assert NewShipments(db.shipments, rows, facilityId, policyId, db.nextId, now) == [];
      assert Grouped(rows) == [] && Keys(rows) == [];
      assert NewReadings(Grouped(rows), db.shipments, db.nextId + 0, now) == [];
      assert DetectionTasks(DocIdsOf(Keys(rows), db.shipments)) == [];
      assert DocIdsOf(Keys(rows), db.shipments) == [];
      return;
    }
    ghost var readings, nextId := db.readings, db.nextId;
    ghost var created := NewShipments(db.shipments, rows, facilityId, policyId, db.nextId, now);
    var docIds, keys, byShipment := ResolveShipments(db, rows, facilityId, policyId, now);
    ghost var shipments, mid := db.shipments, db.nextId;
    assert mid == nextId + |created|;
    var docIdsToDetect := InsertReadings(db, rows, keys, byShipment, docIds, now);
    assert db.readings == readings + NewReadings(Grouped(rows), shipments, mid, now);
    QueueDetections(db, docIdsToDetect);
    IngestDetectsEachOnce(old(db.shipments), rows, facilityId, policyId, nextId, now, db.nextId);
    assert db.shipments == shipments && db.nextId == mid + |Grouped(rows)|;
    assert db.readings == readings + NewReadings(Grouped(rows), shipments, mid, now);
  }
}
