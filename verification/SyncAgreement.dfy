/** What agreement takes: the device knows every current version, and all it holds is on the server or
    in the queue. Building the queue brings this about. */
module SyncAgreement {
  import opened Common
  import opened SyncTypes
  import opened SyncServer
  import opened SyncClient
  import opened SyncProtocol
  import opened SyncVault
  import opened SyncTidy
  import opened SyncInvariant
  import opened SyncSteps

  // ---- agreement

  /** The device knows the current version of every record of the server. */
  ghost predicate InStep(records: map<RecordId, Meta>, rows: map<RecordId, Row>) {
    forall id :: id in rows ==> Knows(records, rows[id], id)
  }

  /** The record is on the server as the device has it, or waits in the queue. */
  ghost predicate Placed(records: map<RecordId, Meta>, queue: seq<Queued>, p: Plain) {
    KnownHash(records, p.id) == Hash(p) || exists k :: 0 <= k < |queue| && queue[k].plain == p
  }

  ghost predicate QueuedDelete(queue: seq<Queued>, id: RecordId) {
    exists k :: 0 <= k < |queue| && queue[k].plain.id == id && queue[k].plain.deletedAt.Some?
  }

  /** Nothing the device remembers is unaccounted for. */
  ghost predicate Accounted(active: seq<Plain>, sync: Sync, queue: seq<Queued>, id: RecordId) {
    id in sync.records ==> sync.records[id].deletedAt.Some? || id in Ids(active) || id in sync.pendingDeletes || QueuedDelete(queue, id)
  }

  /** Everything the device holds is on the server or in the queue. */
  ghost predicate AllPlaced(active: seq<Plain>, sync: Sync, queue: seq<Queued>) {
    && (forall p :: p in active ==> Placed(sync.records, queue, p))
    && (forall id :: id in sync.pendingDeletes ==> Tombstone(id, sync.pendingDeletes[id]) && Placed(sync.records, queue, sync.pendingDeletes[id]))
    && (forall id :: id in sync.records ==> Accounted(active, sync, queue, id))
    && (forall k :: 0 <= k < |queue| ==> FromHere(active, sync.pendingDeletes, queue[k].plain))
  }

  /** A queued payload is the vault's own, or that of a deletion. */
  ghost predicate FromHere(active: seq<Plain>, pending: map<RecordId, Plain>, q: Plain) {
    && (q.deletedAt.None? ==> q in active)
    && (forall p :: p in active && p.id == q.id ==> p == q)
    && (q.id in pending ==> pending[q.id] == q)
  }

  /** Every queued record extends the current version of its record. */
  ghost predicate OnTop(rows: map<RecordId, Row>, q: Queued) {
    q.record.id == q.plain.id && q.record.hash == Hash(q.plain)
    && q.record.revision == 1 + if q.plain.id in rows then rows[q.plain.id].revision else 0
  }

  ghost predicate QueueOnTop(rows: map<RecordId, Row>, queue: seq<Queued>, plainById: map<RecordId, Plain>) {
    QueueFiled(queue, plainById) && forall k :: 0 <= k < |queue| ==> OnTop(rows, queue[k])
  }

  /** A version whose digest is that of a deletion is remembered as deleted. */
  ghost predicate StampOk(m: Meta) {
    m.hash.Sha256? && m.hash.deletedAt.Some? ==> m.deletedAt.Some?
  }

  ghost predicate StampsOk(records: map<RecordId, Meta>) {
    forall id :: id in records ==> StampOk(records[id])
  }

  ghost predicate RowStamped(row: Row) {
    row.hash.Sha256? && row.hash.deletedAt.Some? ==> row.deletedAt.Some?
  }

  lemma StampedRow(account: string, s: Store, row: Row)
    requires StoreInv(account, s) && Current(s, row)
    ensures RowStamped(row)
  {
    assert Filed(s.log, row, row.id);
    assert SealedFor(account, s.wrapped, s.log[row.serverSequence - 1]);
  }

  lemma PullFreshStamps(w: Work, dirty: map<RecordId, Plain>, row: Row, p: Plain, newId: string, now: pos)
    requires RowStamped(row) && StampsOk(w.client.sync.records)
    ensures StampsOk(PullFresh(w, dirty, row, p, newId, now).client.sync.records)
  {
    CopyFirstFrame(w, dirty, row, newId, now);
    assert StampOk(MetaOfRow(row, MetaItemId(p)));
  }

  lemma PullRowStamps(w: Work, key: VaultKey, account: string, dirty: map<RecordId, Plain>, row: Row, newId: string, now: pos)
    requires RowStamped(row) && StampsOk(w.client.sync.records)
    ensures StampsOk(PullRow(w, key, account, dirty, row, newId, now).client.sync.records)
  {
    var p := Decrypt(key, account, row);
    if p.Some? { PullFreshStamps(w, dirty, row, p.value, newId, now); }
  }

  lemma {:induction false} PullRowsStamps(w: Work, key: VaultKey, account: string, dirty: map<RecordId, Plain>, rows: seq<Row>, newIds: seq<string>, now: pos)
    requires |rows| <= |newIds| && StampsOk(w.client.sync.records) && forall k :: 0 <= k < |rows| ==> RowStamped(rows[k])
    ensures StampsOk(PullRows(w, key, account, dirty, rows, newIds, now).client.sync.records)
  {
    if rows != [] {
      var n := |rows| - 1;
      PullRowsStamps(w, key, account, dirty, rows[..n], newIds, now);
      PullRowStamps(PullRows(w, key, account, dirty, rows[..n], newIds, now), key, account, dirty, rows[n], newIds[n], now);
    }
  }

  // ---- building

  lemma {:induction false} BuildPlaces(key: VaultKey, account: string, deviceId: string, records: map<RecordId, Meta>, list: seq<Plain>, p: Plain)
    requires p in list
    ensures var b := Build(key, account, deviceId, records, list); Placed(b.records, b.queue, p)
  {
    var init, last := list[..|list| - 1], list[|list| - 1];
    var b := Build(key, account, deviceId, records, init);
    var c := Build(key, account, deviceId, records, list);
    if p in init {
      BuildPlaces(key, account, deviceId, records, init, p);
      if k :| 0 <= k < |b.queue| && b.queue[k].plain == p { assert c.queue[k].plain == p; }
    } else {
      assert p == last;
      if KnownHash(b.records, p.id) != Hash(p) { assert c.queue[|b.queue|].plain == p; }
    }
  }

  /** While nobody else pushes, a device in step queues every record on top of its current version. */
  lemma QueuedOnTop(account: string, key: VaultKey, deviceId: string, s: Store, records: map<RecordId, Meta>, q: Queued)
    requires Ledger(s) && AllHeld(records, s.log) && InStep(records, s.rows)
    requires q.record == Encrypt(key, account, deviceId, RevisionOn(q.base), q.plain)
    requires q.base.Some? <==> q.plain.id in records
    requires q.base.Some? ==> q.base.value.revision == records[q.plain.id].revision
    ensures OnTop(s.rows, q)
  {
    var id := q.plain.id;
    if id in s.rows {
      assert Knows(records, s.rows[id], id);
      CurrentRow(s, id, records[id]);
    } else if id in records {
      CurrentRow(s, id, records[id]);
    }
  }

  lemma {:induction false} BuildBases(key: VaultKey, account: string, deviceId: string, records: map<RecordId, Meta>, list: seq<Plain>, k: nat)
    requires k < |Build(key, account, deviceId, records, list).queue|
    ensures var b := Build(key, account, deviceId, records, list); var q := b.queue[k];
      && SameVersions(records, b.records)
      && q.record == Encrypt(key, account, deviceId, RevisionOn(q.base), q.plain)
      && (q.base.Some? <==> q.plain.id in records)
      && (q.base.Some? ==> q.base.value.revision == records[q.plain.id].revision)
  {
    var init := list[..|list| - 1];
    var b := Build(key, account, deviceId, records, init);
    BuildVersions(key, account, deviceId, records, init);
    BuildVersions(key, account, deviceId, records, list);
    if k < |b.queue| {
      BuildBases(key, account, deviceId, records, init, k);
    } else {
      assert list[|list| - 1].id in records ==> SameVersion(records[list[|list| - 1].id], b.records[list[|list| - 1].id]);
    }
  }

  lemma {:induction false} MissingCovers(known: set<RecordId>, order: seq<RecordId>, records: map<RecordId, Meta>, now: pos, id: RecordId)
    requires id in order && id !in known && id in records && records[id].deletedAt.None? && !id.SettingsRecord?
    ensures exists p :: p in MissingRecords(known, order, records, now) && p.id == id && p.deletedAt.Some?
  {
    if order[0] == id {
      assert Missing(id, records[id], now)[0] in MissingRecords(known, order, records, now);
    } else {
      MissingCovers(known, order[1..], records, now, id);
      var p :| p in MissingRecords(known, order[1..], records, now) && p.id == id && p.deletedAt.Some?;
      assert p in MissingRecords(known, order, records, now);
    }
  }

  lemma SettingsActive(vault: Vault, now: pos)
    ensures SettingsRecord in Ids(Active(vault, now))
  {
    var active := Active(vault, now);
    assert active[|active| - 1] == SettingsRecordOf(vault, now);
    assert SettingsRecordOf(vault, now) in active;
  }

  lemma BuildAllPlaced(key: VaultKey, account: string, c: Client, pendingOrder: seq<RecordId>, recordOrder: seq<RecordId>, now: pos)
    requires Tidy(c) && Enumerates(pendingOrder, c.sync.pendingDeletes.Keys) && Enumerates(recordOrder, c.sync.records.Keys)
    requires StampsOk(c.sync.records)
    requires forall id :: id in pendingOrder ==> id in c.sync.pendingDeletes
    ensures var b := Build(key, account, c.deviceId, c.sync.records, PushList(c.vault, c.sync, pendingOrder, recordOrder, now));
      AllPlaced(Active(c.vault, now), c.sync.(records := b.records), b.queue)
  {
    var active := Active(c.vault, now);
    var list := PushList(c.vault, c.sync, pendingOrder, recordOrder, now);
    var b := Build(key, account, c.deviceId, c.sync.records, list);
    forall p | p in active ensures Placed(b.records, b.queue, p) {
      BuildPlaces(key, account, c.deviceId, c.sync.records, list, p);
    }
    forall id | id in c.sync.pendingDeletes ensures Placed(b.records, b.queue, c.sync.pendingDeletes[id]) {
      BuildPlacesPending(key, account, c, pendingOrder, recordOrder, now, id);
    }
    BuildVersions(key, account, c.deviceId, c.sync.records, list);
    forall id | id in b.records ensures Accounted(active, c.sync.(records := b.records), b.queue, id) {
      BuildAccounts(key, account, c, pendingOrder, recordOrder, now, id);
    }
    PushListIds(c, pendingOrder, recordOrder, now);
    BuildFiles(key, account, c.deviceId, c.sync.records, list);
    forall k | 0 <= k < |b.queue| ensures FromHere(active, c.sync.pendingDeletes, b.queue[k].plain) {
      ListedOnce(c, pendingOrder, recordOrder, now, b.queue[k].plain);
    }
  }

  lemma ListedOnce(c: Client, pendingOrder: seq<RecordId>, recordOrder: seq<RecordId>, now: pos, q: Plain)
    requires Tidy(c) && Enumerates(pendingOrder, c.sync.pendingDeletes.Keys) && Enumerates(recordOrder, c.sync.records.Keys)
    requires forall id :: id in pendingOrder ==> id in c.sync.pendingDeletes
    requires q in PushList(c.vault, c.sync, pendingOrder, recordOrder, now)
    ensures FromHere(Active(c.vault, now), c.sync.pendingDeletes, q)
  {
    var active, pending := Active(c.vault, now), Pending(pendingOrder, c.sync.pendingDeletes);
    var list := PushList(c.vault, c.sync, pendingOrder, recordOrder, now);
    PushListIds(c, pendingOrder, recordOrder, now);
    forall p | p in active ensures p in list { }
    if q.id in c.sync.pendingDeletes {
      assert q.id in Elements(pendingOrder);
      var i :| 0 <= i < |pendingOrder| && pendingOrder[i] == q.id;
      assert pending[i] == c.sync.pendingDeletes[q.id] && Tombstone(q.id, pending[i]);
      assert pending[i] in list;
    }
  }

  lemma BuildPlacesPending(key: VaultKey, account: string, c: Client, pendingOrder: seq<RecordId>, recordOrder: seq<RecordId>, now: pos, id: RecordId)
    requires Enumerates(pendingOrder, c.sync.pendingDeletes.Keys) && id in c.sync.pendingDeletes
    requires forall id :: id in pendingOrder ==> id in c.sync.pendingDeletes
    ensures var b := Build(key, account, c.deviceId, c.sync.records, PushList(c.vault, c.sync, pendingOrder, recordOrder, now));
      Placed(b.records, b.queue, c.sync.pendingDeletes[id])
  {
    var pending := Pending(pendingOrder, c.sync.pendingDeletes);
    var list := PushList(c.vault, c.sync, pendingOrder, recordOrder, now);
    assert id in Elements(pendingOrder);
    var i :| 0 <= i < |pendingOrder| && pendingOrder[i] == id;
    assert pending[i] == c.sync.pendingDeletes[id];
    assert pending[i] in list;
    BuildPlaces(key, account, c.deviceId, c.sync.records, list, pending[i]);
  }

  lemma BuildAccounts(key: VaultKey, account: string, c: Client, pendingOrder: seq<RecordId>, recordOrder: seq<RecordId>, now: pos, id: RecordId)
    requires Tidy(c) && Enumerates(recordOrder, c.sync.records.Keys) && StampsOk(c.sync.records) && id in c.sync.records
    requires forall id :: id in pendingOrder ==> id in c.sync.pendingDeletes
    ensures var b := Build(key, account, c.deviceId, c.sync.records, PushList(c.vault, c.sync, pendingOrder, recordOrder, now));
      Accounted(Active(c.vault, now), c.sync.(records := b.records), b.queue, id)
  {
    var active := Active(c.vault, now);
    var list := PushList(c.vault, c.sync, pendingOrder, recordOrder, now);
    var b := Build(key, account, c.deviceId, c.sync.records, list);
    BuildVersions(key, account, c.deviceId, c.sync.records, list);
    assert SameVersion(c.sync.records[id], b.records[id]) && StampOk(c.sync.records[id]);
    if c.sync.records[id].deletedAt.None? && id !in Ids(active) && id !in c.sync.pendingDeletes {
      SettingsActive(c.vault, now);
      UnknownId(c, pendingOrder, active, id);
      assert id in Elements(recordOrder);
      var known := Ids(active + Pending(pendingOrder, c.sync.pendingDeletes));
      MissingCovers(known, recordOrder, c.sync.records, now, id);
      var p :| p in MissingRecords(known, recordOrder, c.sync.records, now) && p.id == id && p.deletedAt.Some?;
      BuildPlaces(key, account, c.deviceId, c.sync.records, list, p);
      TombstoneQueued(b, id, p);
    }
  }

  lemma UnknownId(c: Client, pendingOrder: seq<RecordId>, active: seq<Plain>, id: RecordId)
    requires Tidy(c) && forall id :: id in pendingOrder ==> id in c.sync.pendingDeletes
    requires id !in Ids(active) && id !in c.sync.pendingDeletes
    ensures id !in Ids(active + Pending(pendingOrder, c.sync.pendingDeletes))
  {
    var pending := Pending(pendingOrder, c.sync.pendingDeletes);
    forall i | 0 <= i < |pending| ensures pending[i].id != id {
      assert pendingOrder[i] in pendingOrder;
      assert Tombstone(pendingOrder[i], pending[i]);
    }
    forall p | p in active + pending ensures p.id != id {
      if p in active { assert p.id in Ids(active); }
    }
  }

  lemma TombstoneQueued(b: Built, id: RecordId, p: Plain)
    requires Placed(b.records, b.queue, p) && p.id == id && p.deletedAt.Some?
    requires id in b.records && StampOk(b.records[id]) && b.records[id].deletedAt.None?
    ensures QueuedDelete(b.queue, id)
  {
    var k :| 0 <= k < |b.queue| && b.queue[k].plain == p;
  }
}
