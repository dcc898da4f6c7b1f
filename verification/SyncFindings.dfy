/** Where the protocol gives less than one would expect, and exactly when. */
module SyncFindings {
  import opened Common
  import opened SyncTypes
  import opened SyncServer
  import opened SyncServerFacts
  import opened SyncClient
  import opened SyncProtocol
  import opened SyncVault
  import opened SyncTidy
  import opened SyncInvariant
  import opened SyncSteps
  import opened SyncTheorems
  import opened SyncAgreement

  // ---- what the cursor has passed

  /** A row behind the cursor is not in any page asked for from there. */
  lemma BehindTheCursor(s: Store, id: RecordId, cursor: nat, limit: nat)
    requires Ledger(s) && id in s.rows && s.rows[id].serverSequence <= cursor
    ensures s.rows[id] !in PullSince(s, cursor, limit).rows
  {
    var page := PullSince(s, cursor, limit).rows;
    ScanIsPage(s, cursor + 1, limit);
    forall k | 0 <= k < |page| ensures page[k] != s.rows[id] { assert Listed(s, cursor + 1, page[k]); }
  }

  // ---- a record that cannot be read is deleted

  /** The next push holds a tombstone for a remembered record exactly when the record is not
      remembered as deleted, is not in the vault or the pending deletions, and is not the settings.
      The metadata of a row that could not be opened meets this whenever the row itself is not
      deleted: the device deletes, for everyone, what it could not read. */
  lemma TombstoneExactlyWhen(known: set<RecordId>, order: seq<RecordId>, records: map<RecordId, Meta>, now: pos, id: RecordId)
    requires Enumerates(order, records.Keys) && id in records
    ensures (exists p :: p in MissingRecords(known, order, records, now) && p.id == id)
      <==> records[id].deletedAt.None? && id !in known && !id.SettingsRecord?
  {
    assert id in Elements(order);
    if records[id].deletedAt.None? && id !in known && !id.SettingsRecord? {
      MissingCovers(known, order, records, now, id);
    }
    if exists p :: p in MissingRecords(known, order, records, now) && p.id == id {
      var p :| p in MissingRecords(known, order, records, now) && p.id == id;
      MissingOrigin(known, order, records, now, p);
    }
  }

  lemma {:induction false} MissingOrigin(known: set<RecordId>, order: seq<RecordId>, records: map<RecordId, Meta>, now: pos, p: Plain)
    requires p in MissingRecords(known, order, records, now)
    ensures p.id in records && records[p.id].deletedAt.None? && p.id !in known && !p.id.SettingsRecord? && p.deletedAt == Some(now)
  {
    if order[0] in known || order[0] !in records || p !in Missing(order[0], records[order[0]], now) {
      MissingOrigin(known, order[1..], records, now, p);
    }
  }

  /** The push replaces the row by a tombstone. */
  ghost predicate Deletes(s: Store, q: Queued) {
    && q.plain.deletedAt.Some? && q.record.id in s.rows && q.record.revision == s.rows[q.record.id].revision + 1
    && Decide(Find(s.rows, q.record.id), q.record).WriteIncoming?
    && Write(s, q.record).rows[q.record.id].deletedAt.Some?
  }

  ghost predicate DeletionQueued(s: Store, queue: seq<Queued>, id: RecordId) {
    exists k :: 0 <= k < |queue| && queue[k].plain.id == id && Deletes(s, queue[k])
  }

  /** A device that could not open the current row of a record, and holds neither the record nor a
      deletion of it, queues a tombstone on that very row, and the server accepts it, if and only if
      the row is not itself deleted. */
  lemma UnreadableIsDeleted(events: seq<Event>, d: string, pendingOrder: seq<RecordId>, recordOrder: seq<RecordId>, now: pos, id: RecordId)
    requires var p := PairOf(Run(events), d); p.dev.phase.Pulled? && id in p.store.rows && id in p.dev.client.sync.records
    requires var p := PairOf(Run(events), d); var m := p.dev.client.sync.records[id]; m == MetaOfUnread(p.store.rows[id], m.itemId)
    requires var c := PairOf(Run(events), d).dev.client;
      !id.SettingsRecord? && id !in Ids(Active(c.vault, now)) && id !in c.sync.pendingDeletes && Tidy(c)
      && Enumerates(pendingOrder, c.sync.pendingDeletes.Keys) && Enumerates(recordOrder, c.sync.records.Keys)
    ensures var p := PairOf(Run(events), d);
      DeletionQueued(p.store, BuildStep(p.dev, pendingOrder, recordOrder, now).phase.queue, id) <==> p.store.rows[id].deletedAt.None?
  {
    RunInv(events);
    var p := PairOf(Run(events), d);
    assert DeviceInv(Run(events), d) && StoreInv(Account(p.dev), p.store);
    UnreadableHere(Account(p.dev), p, pendingOrder, recordOrder, now, id);
  }

  lemma UnreadableHere(account: string, p: Pair, pendingOrder: seq<RecordId>, recordOrder: seq<RecordId>, now: pos, id: RecordId)
    requires StoreInv(account, p.store) && DevInv(account, p.dev, p.store) && Account(p.dev) == account
    requires p.dev.phase.Pulled? && id in p.store.rows && id in p.dev.client.sync.records
    requires var m := p.dev.client.sync.records[id]; m == MetaOfUnread(p.store.rows[id], m.itemId)
    requires var c := p.dev.client;
      !id.SettingsRecord? && id !in Ids(Active(c.vault, now)) && id !in c.sync.pendingDeletes && Tidy(c)
      && Enumerates(pendingOrder, c.sync.pendingDeletes.Keys) && Enumerates(recordOrder, c.sync.records.Keys)
    ensures DeletionQueued(p.store, BuildStep(p.dev, pendingOrder, recordOrder, now).phase.queue, id) <==> p.store.rows[id].deletedAt.None?
  {
    var c, key := p.dev.client, p.dev.phase.key;
    assert forall id :: id in pendingOrder ==> id in Elements(pendingOrder);
    var list := PushList(c.vault, c.sync, pendingOrder, recordOrder, now);
    var b := Build(key, account, c.deviceId, c.sync.records, list);
    var known := Active(c.vault, now) + Pending(pendingOrder, c.sync.pendingDeletes);
    UnknownId(c, pendingOrder, Active(c.vault, now), id);
    TombstoneExactlyWhen(Ids(known), recordOrder, c.sync.records, now, id);
    if p.store.rows[id].deletedAt.None? {
      MissingCovers(Ids(known), recordOrder, c.sync.records, now, id);
      var gone :| gone in MissingRecords(Ids(known), recordOrder, c.sync.records, now) && gone.id == id && gone.deletedAt.Some?;
      BuildPlaces(key, account, c.deviceId, c.sync.records, list, gone);
      BuildVersions(key, account, c.deviceId, c.sync.records, list);
      assert SameVersion(c.sync.records[id], b.records[id]);
      var k :| 0 <= k < |b.queue| && b.queue[k].plain == gone;
      BuildBases(key, account, c.deviceId, c.sync.records, list, k);
      TombstoneReplaces(account, p.store, b.queue[k]);
    } else {
      BuildListed(key, account, c.deviceId, c.sync.records, list);
      forall k | 0 <= k < |b.queue| ensures b.queue[k].plain.id != id {
        assert b.queue[k].plain in known ==> b.queue[k].plain.id in Ids(known);
      }
    }
  }

  lemma TombstoneReplaces(account: string, s: Store, q: Queued)
    requires StoreInv(account, s) && q.plain.id in s.rows && s.rows[q.plain.id].deletedAt.None?
    requires q.plain.deletedAt.Some? && q.record.id == q.plain.id && q.record.hash == Hash(q.plain) && q.record.deletedAt == q.plain.deletedAt
    requires q.record.revision == s.rows[q.plain.id].revision + 1
    ensures Deletes(s, q)
  {
    LedgerNamed(s);
    StampedRow(account, s, s.rows[q.plain.id]);
  }

  lemma {:induction false} BuildListed(key: VaultKey, account: string, deviceId: string, records: map<RecordId, Meta>, list: seq<Plain>)
    ensures forall k :: 0 <= k < |Build(key, account, deviceId, records, list).queue| ==> Build(key, account, deviceId, records, list).queue[k].plain in list
  {
    if list != [] { BuildListed(key, account, deviceId, records, list[..|list| - 1]); }
  }

  // ---- an edit without a known base

  /** The payload left in the item when `q` is written over it is that of `p`. */
  ghost predicate OverlayCarries(q: Plain, it: Item, p: Plain)
    requires q.body.ItemBody? && p.body.ItemBody?
  {
    && q.deletedAt.None? && q.body.itemType == p.body.itemType
    && Normal(Overlay(q.body.fields, it.fields)) == Normal(p.body.fields)
    && (SameName(NameOf(q.body.itemName, it.itemName), p.body.itemName) || NamedAfter(NameOf(q.body.itemName, it.itemName), p.body.itemName))
  }

  ghost predicate Elsewhere(items: seq<Item>, p: Plain, itemId: string) {
    exists other :: other in items && other.itemId != itemId && Carries(other, p)
  }

  /** Writing over the one item with an identifier changes that item and no other. */
  lemma {:induction false} UpsertExactly(items: seq<Item>, id: string, body: Body, at: Option<Stamp>, it: Item, x: Item)
    requires body.ItemBody? && UniqueItems(items) && it in items && it.itemId == id
    ensures x in Upsert(items, id, body, at) <==> (x in items && x.itemId != id) || x == Updated(it, body, at)
  {
    if items[0].itemId == id {
      assert items[0] == it;
      assert Upsert(items, id, body, at) == [Updated(it, body, at)] + items[1..];
      forall k | 1 <= k < |items| ensures items[k].itemId != id { }
      assert x in items && x.itemId != id ==> x in items[1..];
    } else {
      UpsertExactly(items[1..], id, body, at, it, x);
    }
  }

  /** An item without a known base gets no conflict copy when a readable row for it arrives. Its payload
      survives if and only if what the row leaves of the item still carries it, which a deleted row
      never does, or another item carries it. */
  lemma UnknownBaseSurvivesExactlyWhen(w: Work, key: VaultKey, account: string, dirty: map<RecordId, Plain>, row: Row, newId: string, now: pos, it: Item, p: Plain)
    requires UniqueItems(w.client.vault.items) && it in w.client.vault.items && InPlace(it, p) && row.id == p.id
    requires KnownHash(w.client.sync.records, row.id) == NoHash && row.hash.Sha256? && row.id !in w.client.sync.pendingDeletes
    requires Decrypt(key, account, row).Some?
    ensures Survives(PullRow(w, key, account, dirty, row, newId, now).client.vault, p)
      <==> OverlayCarries(Decrypt(key, account, row).value, it, p) || Elsewhere(w.client.vault.items, p, it.itemId)
  {
    var q := Decrypt(key, account, row).value;
    var items := w.client.vault.items;
    var after := PullRow(w, key, account, dirty, row, newId, now).client.vault;
    assert !NeedsCopy(w.client.sync, dirty, row) && !Stale(w.client.sync, row);
    assert after == Apply(w.client.vault, q);
    if q.deletedAt.Some? {
      forall x ensures x in after.items <==> x in items && x.itemId != it.itemId { WithoutExactly(items, it.itemId, x); }
    } else {
      var updated := Updated(it, q.body, q.updatedAt);
      forall x ensures x in after.items <==> (x in items && x.itemId != it.itemId) || x == updated {
        UpsertExactly(items, it.itemId, q.body, q.updatedAt, it, x);
      }
      assert Carries(updated, p) <==> OverlayCarries(q, it, p);
      assert updated in after.items;
    }
  }

  /** This is the case of every item in the first sync after the account was switched: it starts
      without a known base for any record, and so without an edit to keep. */
  lemma FirstSyncSurvivesExactlyWhen(dev: Dev, account: string, full: bool, start: pos, key: VaultKey, row: Row, newId: string, now: pos, it: Item, p: Plain)
    requires dev.phase.Idle? && dev.client.sync.accountId != Some(account)
    requires UniqueItems(dev.client.vault.items) && it in dev.client.vault.items && InPlace(it, p) && row.id == p.id
    requires row.hash.Sha256? && Decrypt(key, account, row).Some?
    ensures var d := StartSync(dev, account, full, start);
      && d.phase.pull.past.edits == map[]
      && (Survives(PullRow(WorkOn(d.client, d.phase.pull), key, account, d.phase.pull.dirty, row, newId, now).client.vault, p)
          <==> OverlayCarries(Decrypt(key, account, row).value, it, p) || Elsewhere(dev.client.vault.items, p, it.itemId))
  {
    var d := StartSync(dev, account, full, start);
    UnknownBaseSurvivesExactlyWhen(WorkOn(d.client, d.phase.pull), key, account, d.phase.pull.dirty, row, newId, now, it, p);
  }

  // ---- a passkey without a creation time is pushed at every sync

  lemma {:induction false} DirtyExactlyWhen(list: seq<Plain>, records: map<RecordId, Meta>, id: RecordId)
    ensures id in Dirty(list, records) <==> exists p :: p in list && p.id == id && KnownHash(records, id) != Hash(p)
  {
    if list != [] {
      var init, last := list[..|list| - 1], list[|list| - 1];
      DirtyExactlyWhen(init, records, id);
      assert list == init + [last];
    }
  }

  lemma {:induction false} PasskeyOf(passkeys: seq<Passkey>, now: pos, r: Plain) returns (q: Passkey)
    requires r in PasskeyRecords(passkeys, now)
    ensures q in passkeys && HasRecord(q) && r == RecordOfPasskey(q, now)
  {
    if HasRecord(passkeys[0]) && r == RecordOfPasskey(passkeys[0], now) {
      q := passkeys[0];
    } else {
      q := PasskeyOf(passkeys[1..], now, r);
    }
  }

  lemma {:induction false} PasskeyListed(passkeys: seq<Passkey>, now: pos, q: Passkey)
    requires q in passkeys && HasRecord(q)
    ensures RecordOfPasskey(q, now) in PasskeyRecords(passkeys, now)
  {
    if passkeys[0] != q { PasskeyListed(passkeys[1..], now, q); }
  }

  /** A passkey whose record reached the server at one time is dirty again at any other, without an
      edit, if and only if it has no creation time. */
  lemma DirtyAgainExactlyWhen(vault: Vault, records: map<RecordId, Meta>, q: Passkey, a: pos, b: pos)
    requires UniquePasskeys(vault.sitePasskeys) && q in vault.sitePasskeys && HasRecord(q) && a != b
    requires KnownHash(records, SitePasskeyRecord(q.credentialId.value)) == Hash(RecordOfPasskey(q, a))
    ensures SitePasskeyRecord(q.credentialId.value) in Dirty(Active(vault, b), records) <==> q.createdAt.None?
  {
    var id, active := SitePasskeyRecord(q.credentialId.value), Active(vault, b);
    DirtyExactlyWhen(active, records, id);
    PasskeyListed(vault.sitePasskeys, b, q);
    var now := RecordOfPasskey(q, b);
    assert now in active;
    forall r | r in active && r.id == id ensures r == now {
      assert r in PasskeyRecords(vault.sitePasskeys, b);
      var other := PasskeyOf(vault.sitePasskeys, b, r);
    }
  }
}
