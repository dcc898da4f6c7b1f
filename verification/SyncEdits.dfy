/** What a pull adds to the vault, and that it loses no local edit: an item edited since its last
    acknowledged version keeps its payload, in place or in a conflict copy. */
module SyncEdits {
  import opened Common
  import opened SyncTypes
  import opened SyncServer
  import opened SyncClient
  import opened SyncProtocol
  import opened SyncVault
  import opened SyncTidy
  import opened SyncInvariant
  import opened SyncSteps
  import opened SyncTheorems

  // ---- what a pull adds

  ghost predicate Arrived(rows: seq<Row>, itemId: string) {
    exists k :: 0 <= k < |rows| && rows[k].id == ItemRecord(itemId)
  }

  /** The item is the copy of a dirty record that a row with another digest displaced. */
  predicate CopiedBy(dirty: map<RecordId, Plain>, row: Row, newId: string, it: Item) {
    it.itemId == newId && row.id in dirty && Hash(dirty[row.id]) != row.hash && CopyOf(it, dirty[row.id])
  }

  ghost predicate Copied(dirty: map<RecordId, Plain>, rows: seq<Row>, newIds: seq<string>, it: Item) {
    exists k :: 0 <= k < |rows| && k < |newIds| && CopiedBy(dirty, rows[k], newIds[k], it)
  }

  ghost predicate WasThere(items: seq<Item>, it: Item) {
    exists was :: was in items && SamePayload(it, was)
  }

  lemma PullRowAdds(w: Work, key: VaultKey, account: string, dirty: map<RecordId, Plain>, row: Row, newId: string, now: pos, it: Item)
    requires it in PullRow(w, key, account, dirty, row, newId, now).client.vault.items && row.id != ItemRecord(it.itemId)
    ensures CopiedBy(dirty, row, newId, it) || WasThere(w.client.vault.items, it)
  {
    var q := Decrypt(key, account, row);
    if it in w.client.vault.items {
      assert SamePayload(it, it);
    } else {
      var c := CopyFirst(w, dirty, row, newId, now);
      assert q.Some? && q.value.id == row.id;
      var was := ApplyOrigin(c.client.vault, q.value, it);
      if was !in w.client.vault.items {
        CopyCarries(dirty[row.id], newId, now);
        assert was == ConflictCopy(dirty[row.id], newId, now);
      }
    }
  }

  /** Whatever payload a pull adds to the vault is that of a pulled record or of a conflict copy, and
      only dirty records, displaced by a row with another digest, get copies. */
  lemma {:induction false} PullRowsAdd(w: Work, key: VaultKey, account: string, dirty: map<RecordId, Plain>, rows: seq<Row>, newIds: seq<string>, now: pos, it: Item)
    requires |rows| <= |newIds| && it in PullRows(w, key, account, dirty, rows, newIds, now).client.vault.items
    ensures Arrived(rows, it.itemId) || Copied(dirty, rows, newIds, it) || WasThere(w.client.vault.items, it)
  {
    if rows == [] {
      assert SamePayload(it, it);
    } else {
      var n := |rows| - 1;
      var mid := PullRows(w, key, account, dirty, rows[..n], newIds, now);
      if rows[n].id != ItemRecord(it.itemId) {
        PullRowAdds(mid, key, account, dirty, rows[n], newIds[n], now, it);
        if !CopiedBy(dirty, rows[n], newIds[n], it) {
          var was :| was in mid.client.vault.items && SamePayload(it, was);
          PullRowsAdd(w, key, account, dirty, rows[..n], newIds, now, was);
          AddedBefore(w.client.vault.items, dirty, rows, newIds, it, was);
        }
      }
    }
  }

  lemma AddedBefore(items: seq<Item>, dirty: map<RecordId, Plain>, rows: seq<Row>, newIds: seq<string>, it: Item, was: Item)
    requires rows != [] && SamePayload(it, was)
    requires var init := rows[..|rows| - 1]; Arrived(init, was.itemId) || Copied(dirty, init, newIds, was) || WasThere(items, was)
    ensures Arrived(rows, it.itemId) || Copied(dirty, rows, newIds, it) || WasThere(items, it)
  {
    var init := rows[..|rows| - 1];
    if Arrived(init, was.itemId) {
      var k :| 0 <= k < |init| && init[k].id == ItemRecord(was.itemId);
      assert rows[k].id == ItemRecord(it.itemId);
    } else if Copied(dirty, init, newIds, was) {
      var k :| 0 <= k < |init| && k < |newIds| && CopiedBy(dirty, init[k], newIds[k], was);
      assert CopiedBy(dirty, rows[k], newIds[k], it);
    }
  }

  lemma PullRowsFresh(s: Store, w: Work, key: VaultKey, account: string, dirty: map<RecordId, Plain>, rows: seq<Row>, newIds: seq<string>, now: pos)
    requires AllCurrent(s, rows) && |rows| < |newIds| && Distinct(newIds)
    requires ItemRecord(newIds[|rows|]) !in s.rows && newIds[|rows|] !in ItemIds(w.client.vault.items)
    ensures newIds[|rows|] !in ItemIds(PullRows(w, key, account, dirty, rows, newIds, now).client.vault.items)
  {
    var id := newIds[|rows|];
    forall it | it in PullRows(w, key, account, dirty, rows, newIds, now).client.vault.items ensures it.itemId != id {
      PullRowsAdd(w, key, account, dirty, rows, newIds, now, it);
      if Arrived(rows, it.itemId) {
        var k :| 0 <= k < |rows| && rows[k].id == ItemRecord(it.itemId);
        assert Current(s, rows[k]);
      }
    }
  }

  // ---- what a pull keeps

  /** The payload is where it was, or in a copy made during this pull. */
  predicate KeptIn(copies: map<string, Plain>, it: Item, p: Plain) {
    InPlace(it, p) || (it.itemId in copies && copies[it.itemId] == p && CopyOf(it, p))
  }

  ghost predicate EditKept(w: Work, p: Plain) {
    exists it :: it in w.client.vault.items && KeptIn(w.copies, it, p)
  }

  /** Only the record's own row can cost an edit, and only if it cannot be opened; so can a copy whose
      identifier has turned up on the server. */
  ghost predicate EditSafe(w: Work, rows: map<RecordId, Row>, p: Plain) {
    p.id !in w.unread ==>
      KnownHash(w.client.sync.records, p.id).Sha256? && (p.id !in Clashed(w.copies, rows) ==> EditKept(w, p))
  }

  lemma PullFreshKeeps(s: Store, w: Work, dirty: map<RecordId, Plain>, row: Row, q: Plain, newId: string, now: pos, p: Plain)
    requires Current(s, row) && newId !in ItemIds(w.client.vault.items) && Hash(q) == row.hash && q.id == row.id
    requires Copyable(p) && p.id in dirty && dirty[p.id] == p
    requires KnownHash(w.client.sync.records, p.id).Sha256? && EditKept(w, p) && p.id !in Clashed(w.copies, s.rows)
    ensures EditKept(PullFresh(w, dirty, row, q, newId, now), p)
  {
    var it :| it in w.client.vault.items && KeptIn(w.copies, it, p);
    assert it.itemId in ItemIds(w.client.vault.items);
    var c := CopyFirst(w, dirty, row, newId, now);
    assert it in c.client.vault.items && KeptIn(c.copies, it, p);
    if row.id != ItemRecord(it.itemId) {
      var kept := ApplyLeaves(c.client.vault, q, it);
      assert KeptIn(c.copies, kept, p);
    } else {
      assert InPlace(it, p);
      if NeedsCopy(w.client.sync, dirty, row) {
        CopyCarries(p, newId, now);
        var copy := ConflictCopy(p, newId, now);
        assert c.client.vault.items[|w.client.vault.items|] == copy;
        var kept := ApplyLeaves(c.client.vault, q, copy);
        assert KeptIn(c.copies, kept, p);
      } else {
        var kept := ApplySame(c.client.vault, q, it);
        assert KeptIn(c.copies, kept, p);
      }
    }
  }

  lemma ClashesGrow(w: Work, dirty: map<RecordId, Plain>, row: Row, q: Plain, newId: string, now: pos, rows: map<RecordId, Row>)
    requires ItemRecord(newId) !in rows
    ensures var r := PullFresh(w, dirty, row, q, newId, now);
      Clashed(w.copies, rows) <= Clashed(r.copies, rows) && r.unread == w.unread && r.client.sync.records[row.id].hash == row.hash
  {
    var r := PullFresh(w, dirty, row, q, newId, now);
    forall id | id in w.copies && ItemRecord(id) in rows ensures id in r.copies && r.copies[id] == w.copies[id] { }
  }

  lemma PullRowKeeps(s: Store, w: Work, key: VaultKey, account: string, dirty: map<RecordId, Plain>, row: Row, newId: string, now: pos, p: Plain)
    requires Current(s, row) && row.hash.Sha256? && !Stale(w.client.sync, row)
    requires ItemRecord(newId) !in s.rows && newId !in ItemIds(w.client.vault.items)
    requires Copyable(p) && p.id in dirty && dirty[p.id] == p
    requires EditSafe(w, s.rows, p)
    ensures EditSafe(PullRow(w, key, account, dirty, row, newId, now), s.rows, p)
  {
    var r := PullRow(w, key, account, dirty, row, newId, now);
    var q := Decrypt(key, account, row);
    if row.id in w.client.sync.records && w.client.sync.records[row.id].hash == row.hash {
    } else if q.Some? && row.id !in w.client.sync.pendingDeletes {
      PullFreshNotes(w, dirty, row, q.value, newId, now);
      ClashesGrow(w, dirty, row, q.value, newId, now, s.rows);
      if p.id !in r.unread && p.id !in Clashed(r.copies, s.rows) {
        PullFreshKeeps(s, w, dirty, row, q.value, newId, now, p);
      }
    }
  }

  ghost predicate Readable(s: Store, rows: seq<Row>) {
    forall k :: 0 <= k < |rows| ==> Current(s, rows[k]) && rows[k].hash.Sha256?
  }

  lemma {:induction false} PullRowsKeep(s: Store, w: Work, key: VaultKey, account: string, dirty: map<RecordId, Plain>, rows: seq<Row>, newIds: seq<string>, now: pos, p: Plain)
    requires Ledger(s) && AllHeld(w.client.sync.records, s.log) && Readable(s, rows) && |rows| <= |newIds| && Distinct(newIds)
    requires forall k :: 0 <= k < |newIds| ==> ItemRecord(newIds[k]) !in s.rows && newIds[k] !in ItemIds(w.client.vault.items)
    requires Copyable(p) && p.id in dirty && dirty[p.id] == p && EditSafe(w, s.rows, p)
    ensures EditSafe(PullRows(w, key, account, dirty, rows, newIds, now), s.rows, p)
  {
    if rows != [] {
      var n := |rows| - 1;
      PullRowsKeep(s, w, key, account, dirty, rows[..n], newIds, now, p);
      assert AllCurrent(s, rows[..n]);
      PullRowsHeld(s, w, key, account, dirty, rows[..n], newIds, now);
      PullRowsFresh(s, w, key, account, dirty, rows[..n], newIds, now);
      var mid := PullRows(w, key, account, dirty, rows[..n], newIds, now);
      NeverStale(s, mid.client.sync, rows[n]);
      PullRowKeeps(s, mid, key, account, dirty, rows[n], newIds[n], now, p);
    }
  }

  // ---- which records the device has not read

  /** A record without a digest had none when the sync began, or its row could not be opened since;
      and without a failure none was. */
  ghost predicate Reads(records: map<RecordId, Meta>, failures: nat, blank: set<RecordId>, unread: set<RecordId>) {
    Unknown(records) <= blank + unread && (failures == 0 ==> unread == {})
  }

  lemma NotedReads(a: map<RecordId, Meta>, b: map<RecordId, Meta>, id: RecordId, failures: nat, blank: set<RecordId>, unread: set<RecordId>)
    requires Reads(a, failures, blank, unread) && id in b && b == a[id := b[id]] && b[id].hash.Sha256?
    ensures Reads(b, failures, blank, unread)
  {
  }

  lemma UnreadReads(w: Work, row: Row, blank: set<RecordId>)
    requires Reads(w.client.sync.records, w.failures, blank, w.unread)
    ensures var r := PullUnreadable(w, row); Reads(r.client.sync.records, r.failures, blank, r.unread)
  {
    var r := PullUnreadable(w, row);
    forall id | id in Unknown(r.client.sync.records) && id != row.id ensures id in Unknown(w.client.sync.records) { }
  }

  lemma PullRowReads(w: Work, key: VaultKey, account: string, dirty: map<RecordId, Plain>, row: Row, newId: string, now: pos, blank: set<RecordId>)
    requires row.hash.Sha256? && Reads(w.client.sync.records, w.failures, blank, w.unread)
    ensures var r := PullRow(w, key, account, dirty, row, newId, now); Reads(r.client.sync.records, r.failures, blank, r.unread)
  {
    var sync := w.client.sync;
    var q := Decrypt(key, account, row);
    if row.id in sync.records && sync.records[row.id].hash == row.hash {
      NotedReads(sync.records, PullKnown(w, row).client.sync.records, row.id, w.failures, blank, w.unread);
    } else if q.None? {
      UnreadReads(w, row, blank);
    } else if row.id in sync.pendingDeletes {
      NotedReads(sync.records, PullOverPending(w, row, q.value).client.sync.records, row.id, w.failures, blank, w.unread);
    } else if !Stale(sync, row) {
      PullFreshReads(w, dirty, row, q.value, newId, now, blank);
    }
  }

  lemma PullFreshReads(w: Work, dirty: map<RecordId, Plain>, row: Row, q: Plain, newId: string, now: pos, blank: set<RecordId>)
    requires row.hash.Sha256? && Reads(w.client.sync.records, w.failures, blank, w.unread)
    ensures var r := PullFresh(w, dirty, row, q, newId, now); Reads(r.client.sync.records, r.failures, blank, r.unread)
  {
    CopyFirstFrame(w, dirty, row, newId, now);
    assert CopyFirst(w, dirty, row, newId, now).unread == w.unread;
  }

  lemma {:induction false} PullRowsRead(w: Work, key: VaultKey, account: string, dirty: map<RecordId, Plain>, rows: seq<Row>, newIds: seq<string>, now: pos, blank: set<RecordId>)
    requires |rows| <= |newIds| && (forall k :: 0 <= k < |rows| ==> rows[k].hash.Sha256?) && Reads(w.client.sync.records, w.failures, blank, w.unread)
    ensures var r := PullRows(w, key, account, dirty, rows, newIds, now); Reads(r.client.sync.records, r.failures, blank, r.unread)
  {
    if rows != [] {
      var n := |rows| - 1;
      PullRowsRead(w, key, account, dirty, rows[..n], newIds, now, blank);
      PullRowReads(PullRows(w, key, account, dirty, rows[..n], newIds, now), key, account, dirty, rows[n], newIds[n], now, blank);
    }
  }

  lemma {:induction false} AcceptsRead(sync: Sync, failures: nat, plainById: map<RecordId, Plain>, accepted: seq<Accepted>, blank: set<RecordId>, unread: set<RecordId>)
    requires (forall k :: 0 <= k < |accepted| ==> accepted[k].hash.Sha256?) && Reads(sync.records, failures, blank, unread)
    ensures Reads(TakeAllAccepted(sync, plainById, accepted).records, failures, blank, unread)
  {
    if accepted != [] { AcceptsRead(sync, failures, plainById, accepted[..|accepted| - 1], blank, unread); }
  }

  lemma RefusalReads(w: Work, key: VaultKey, account: string, plainById: map<RecordId, Plain>, row: Row, newId: string, now: pos, blank: set<RecordId>)
    requires row.hash.Sha256? && Reads(w.client.sync.records, w.failures, blank, w.unread)
    ensures var r := TakeConflict(w, key, account, plainById, row, newId, now);
      Reads(r.client.sync.records, r.failures, blank, w.unread) && r.unread == w.unread
  {
  }

  lemma {:induction false} RefusalsRead(w: Work, key: VaultKey, account: string, plainById: map<RecordId, Plain>, rows: seq<Row>, newIds: seq<string>, now: pos, blank: set<RecordId>)
    requires |rows| <= |newIds| && (forall k :: 0 <= k < |rows| ==> rows[k].hash.Sha256?) && Reads(w.client.sync.records, w.failures, blank, w.unread)
    ensures var r := TakeConflicts(w, key, account, plainById, rows, newIds, now);
      Reads(r.client.sync.records, r.failures, blank, w.unread) && r.unread == w.unread
  {
    if rows != [] {
      var n := |rows| - 1;
      RefusalsRead(w, key, account, plainById, rows[..n], newIds, now, blank);
      RefusalReads(TakeConflicts(w, key, account, plainById, rows[..n], newIds, now), key, account, plainById, rows[n], newIds[n], now, blank);
    }
  }
}
