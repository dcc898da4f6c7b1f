/** A vault that names every record once still does after a pull, and then nothing is queued twice. */
module SyncTidy {
  import opened Common
  import opened SyncTypes
  import opened SyncServer
  import opened SyncClient
  import opened SyncProtocol
  import opened SyncInvariant
  import opened SyncVault

  // ---- pulling

  /** Identifiers that no item of the client has and that no deletion waits for. */
  ghost predicate FreshFor(c: Client, id: string) {
    id !in ItemIds(c.vault.items) && ItemRecord(id) !in c.sync.pendingDeletes
  }

  lemma TidyParts(c: Client)
    ensures Tidy(c) <==>
      && UniqueItems(c.vault.items) && UniquePasskeys(c.vault.sitePasskeys)
      && (forall it :: it in c.vault.items ==> ItemRecord(it.itemId) !in c.sync.pendingDeletes)
      && (forall q :: q in c.vault.sitePasskeys && HasRecord(q) ==> SitePasskeyRecord(q.credentialId.value) !in c.sync.pendingDeletes)
      && (forall id :: id in c.sync.pendingDeletes ==> Tombstone(id, c.sync.pendingDeletes[id]))
  {
  }

  lemma TidyApply(c: Client, p: Plain)
    requires Tidy(c) && p.id !in c.sync.pendingDeletes
    ensures Tidy(c.(vault := Apply(c.vault, p)))
    ensures forall id :: FreshFor(c, id) && p.id != ItemRecord(id) ==> FreshFor(c.(vault := Apply(c.vault, p)), id)
  {
    TidyParts(c);
    ApplyIds(c.vault, p);
    ApplyPasskeyIds(c.vault, p);
    var d := c.(vault := Apply(c.vault, p));
    forall it | it in d.vault.items ensures ItemRecord(it.itemId) !in d.sync.pendingDeletes {
      if it.itemId in ItemIds(c.vault.items) {
        var was :| was in c.vault.items && was.itemId == it.itemId;
      }
    }
    TidyParts(d);
  }

  lemma TidyPreserve(c: Client, p: Plain, id: string, now: pos)
    requires Tidy(c) && FreshFor(c, id)
    ensures Tidy(c.(vault := Preserve(c.vault, p, id, now)))
    ensures forall other :: FreshFor(c, other) && other != id ==> FreshFor(c.(vault := Preserve(c.vault, p, id, now)), other)
  {
    TidyParts(c);
    var d := c.(vault := Preserve(c.vault, p, id, now));
    if Copyable(p) {
      CopyCarries(p, id, now);
      var copy := ConflictCopy(p, id, now);
      forall i | 0 <= i < |c.vault.items| ensures c.vault.items[i].itemId != id {
        assert c.vault.items[i].itemId in ItemIds(c.vault.items);
      }
      assert UniqueItems(d.vault.items);
    }
    TidyParts(d);
  }

  /** Tidiness looks only at the vault and the pending deletions. */
  lemma TidyFrame(c: Client, d: Client)
    requires Tidy(c) && d.vault == c.vault && d.sync.pendingDeletes.Keys <= c.sync.pendingDeletes.Keys
    requires forall id :: id in d.sync.pendingDeletes ==> d.sync.pendingDeletes[id] == c.sync.pendingDeletes[id]
    ensures Tidy(d)
    ensures forall id :: FreshFor(c, id) ==> FreshFor(d, id)
  {
  }

  lemma TidyPullFresh(w: Work, dirty: map<RecordId, Plain>, row: Row, p: Plain, newId: string, now: pos)
    requires Tidy(w.client) && FreshFor(w.client, newId) && p.id == row.id && row.id !in w.client.sync.pendingDeletes
    ensures var c := PullFresh(w, dirty, row, p, newId, now).client;
      && Tidy(c)
      && forall id :: FreshFor(w.client, id) && id != newId && row.id != ItemRecord(id) ==> FreshFor(c, id)
  {
    var mid := w.client;
    if NeedsCopy(w.client.sync, dirty, row) {
      TidyPreserve(w.client, dirty[row.id], newId, now);
      mid := w.client.(vault := Preserve(w.client.vault, dirty[row.id], newId, now));
    }
    TidyApply(mid, p);
    TidyFrame(mid.(vault := Apply(mid.vault, p)), PullFresh(w, dirty, row, p, newId, now).client);
  }

  lemma TidyPullRow(w: Work, key: VaultKey, account: string, dirty: map<RecordId, Plain>, row: Row, newId: string, now: pos)
    requires Tidy(w.client) && FreshFor(w.client, newId)
    ensures var c := PullRow(w, key, account, dirty, row, newId, now).client;
      && Tidy(c)
      && forall id :: FreshFor(w.client, id) && id != newId && row.id != ItemRecord(id) ==> FreshFor(c, id)
  {
    var r := PullRow(w, key, account, dirty, row, newId, now);
    if row.id in w.client.sync.records && w.client.sync.records[row.id].hash == row.hash {
      TidyFrame(w.client, r.client);
    } else {
      var p := Decrypt(key, account, row);
      if p.Some? && row.id !in w.client.sync.pendingDeletes && !Stale(w.client.sync, row) {
        TidyPullFresh(w, dirty, row, p.value, newId, now);
      } else {
        TidyFrame(w.client, r.client);
      }
    }
  }

  lemma {:induction false} TidyPullRows(w: Work, key: VaultKey, account: string, dirty: map<RecordId, Plain>, rows: seq<Row>, newIds: seq<string>, now: pos)
    requires |rows| <= |newIds| && Distinct(newIds) && Tidy(w.client)
    requires forall k :: 0 <= k < |newIds| ==> FreshFor(w.client, newIds[k])
    requires forall k, j :: 0 <= k < |newIds| && 0 <= j < |rows| ==> rows[j].id != ItemRecord(newIds[k])
    ensures var c := PullRows(w, key, account, dirty, rows, newIds, now).client;
      && Tidy(c)
      && forall k :: |rows| <= k < |newIds| ==> FreshFor(c, newIds[k])
  {
    if rows != [] {
      var n := |rows| - 1;
      TidyPullRows(w, key, account, dirty, rows[..n], newIds, now);
      TidyPullRow(PullRows(w, key, account, dirty, rows[..n], newIds, now), key, account, dirty, rows[n], newIds[n], now);
    }
  }

  // ---- refused pushes

  /** No pushed payload of the vault awaits deletion. */
  ghost predicate Clear(plainById: map<RecordId, Plain>, pending: map<RecordId, Plain>) {
    forall id :: id in plainById && plainById[id].deletedAt.None? ==> id !in pending
  }

  ghost predicate Shrinks(pending: map<RecordId, Plain>, pending': map<RecordId, Plain>) {
    forall id :: id in pending' ==> id in pending && pending'[id] == pending[id]
  }

  lemma TidyRefused(w: Work, key: VaultKey, account: string, plainById: map<RecordId, Plain>, row: Row, newId: string, now: pos)
    requires Tidy(w.client) && FreshFor(w.client, newId) && row.id in plainById && Clear(plainById, w.client.sync.pendingDeletes)
    ensures var c := TakeConflict(w, key, account, plainById, row, newId, now).client;
      && Tidy(c) && Shrinks(w.client.sync.pendingDeletes, c.sync.pendingDeletes)
      && forall id :: FreshFor(w.client, id) && id != newId && row.id != ItemRecord(id) ==> FreshFor(c, id)
  {
    var c := TakeConflict(w, key, account, plainById, row, newId, now).client;
    var local := plainById[row.id];
    if local.deletedAt.Some? {
      TidyFrame(w.client, c);
    } else {
      TidyPreserve(w.client, local, newId, now);
      var mid := w.client.(vault := Preserve(w.client.vault, local, newId, now));
      var q := Decrypt(key, account, row);
      if q.Some? {
        TidyApply(mid, q.value);
        TidyFrame(mid.(vault := Apply(mid.vault, q.value)), c);
      } else {
        TidyFrame(mid, c);
      }
    }
  }

  lemma {:induction false} TidyConflicts(w: Work, key: VaultKey, account: string, plainById: map<RecordId, Plain>, rows: seq<Row>, newIds: seq<string>, now: pos)
    requires |rows| <= |newIds| && Distinct(newIds) && Tidy(w.client) && Clear(plainById, w.client.sync.pendingDeletes)
    requires forall k :: 0 <= k < |newIds| ==> FreshFor(w.client, newIds[k])
    requires forall k, j :: 0 <= k < |newIds| && 0 <= j < |rows| ==> rows[j].id != ItemRecord(newIds[k])
    requires forall j :: 0 <= j < |rows| ==> rows[j].id in plainById
    ensures var c := TakeConflicts(w, key, account, plainById, rows, newIds, now).client;
      && Tidy(c) && Shrinks(w.client.sync.pendingDeletes, c.sync.pendingDeletes)
      && forall k :: |rows| <= k < |newIds| ==> FreshFor(c, newIds[k])
  {
    if rows != [] {
      var n := |rows| - 1;
      TidyConflicts(w, key, account, plainById, rows[..n], newIds, now);
      TidyRefused(TakeConflicts(w, key, account, plainById, rows[..n], newIds, now), key, account, plainById, rows[n], newIds[n], now);
    }
  }

  lemma {:induction false} AcceptedShrinks(sync: Sync, plainById: map<RecordId, Plain>, accepted: seq<Accepted>)
    ensures Shrinks(sync.pendingDeletes, TakeAllAccepted(sync, plainById, accepted).pendingDeletes)
  {
    if accepted != [] { AcceptedShrinks(sync, plainById, accepted[..|accepted| - 1]); }
  }

  /** The answer to a push leaves a tidy device tidy. */
  lemma TidyOutcome(w: Work, key: VaultKey, account: string, plainById: map<RecordId, Plain>, o: PushOutcome, newIds: seq<string>, now: pos)
    requires |o.conflicts| <= |newIds| && Distinct(newIds) && Tidy(w.client) && Clear(plainById, w.client.sync.pendingDeletes)
    requires forall k :: 0 <= k < |newIds| ==> FreshFor(w.client, newIds[k])
    requires forall k, j :: 0 <= k < |newIds| && 0 <= j < |o.conflicts| ==> o.conflicts[j].id != ItemRecord(newIds[k])
    requires forall j :: 0 <= j < |o.conflicts| ==> o.conflicts[j].id in plainById
    ensures var c := TakeOutcome(w, key, account, plainById, o, newIds, now).client; Tidy(c) && Clear(plainById, c.sync.pendingDeletes)
  {
    AcceptedShrinks(w.client.sync, plainById, o.accepted);
    var mid := w.(client := w.client.(sync := TakeAllAccepted(w.client.sync, plainById, o.accepted)));
    TidyFrame(w.client, mid.client);
    TidyConflicts(mid, key, account, plainById, o.conflicts, newIds, now);
  }

  // ---- the list of records to push

  predicate DistinctPlain(list: seq<Plain>) {
    forall i, j :: 0 <= i < j < |list| ==> list[i].id != list[j].id
  }

  lemma DistinctConcat(a: seq<Plain>, b: seq<Plain>)
    requires DistinctPlain(a) && DistinctPlain(b) && forall p, q :: p in a && q in b ==> p.id != q.id
    ensures DistinctPlain(a + b)
  {
    var c := a + b;
    forall i, j | 0 <= i < j < |c| ensures c[i].id != c[j].id {
      if i < |a| <= j { assert a[i] in a && b[j - |a|] in b; }
    }
  }

  lemma {:induction false} PasskeyRecordIds(passkeys: seq<Passkey>, now: pos)
    requires UniquePasskeys(passkeys)
    ensures DistinctPlain(PasskeyRecords(passkeys, now))
    ensures forall r :: r in PasskeyRecords(passkeys, now) ==> FromPasskey(passkeys, r)
  {
    if passkeys != [] {
      PasskeyRecordIds(passkeys[1..], now);
      var rest := PasskeyRecords(passkeys[1..], now);
      forall r | r in rest ensures FromPasskey(passkeys, r) {
        var q :| q in passkeys[1..] && HasRecord(q) && r.id == SitePasskeyRecord(q.credentialId.value) && r.deletedAt.None?;
        assert q in passkeys;
      }
      if HasRecord(passkeys[0]) {
        var first := RecordOfPasskey(passkeys[0], now);
        forall r | r in rest ensures r.id != first.id {
          var q :| q in passkeys[1..] && HasRecord(q) && r.id == SitePasskeyRecord(q.credentialId.value) && r.deletedAt.None?;
          var k :| 1 <= k < |passkeys| && passkeys[k] == q;
          assert passkeys[0].credentialId != passkeys[k].credentialId;
        }
        DistinctConcat([first], rest);
        assert passkeys[0] in passkeys;
      }
    }
  }

  ghost predicate FromPasskey(passkeys: seq<Passkey>, r: Plain) {
    exists q :: q in passkeys && HasRecord(q) && r.id == SitePasskeyRecord(q.credentialId.value) && r.deletedAt.None?
  }

  lemma {:induction false} MissingIds(known: set<RecordId>, order: seq<RecordId>, records: map<RecordId, Meta>, now: pos)
    requires Distinct(order)
    ensures DistinctPlain(MissingRecords(known, order, records, now))
    ensures forall r :: r in MissingRecords(known, order, records, now) ==> r.id in order && r.id !in known && r.deletedAt.Some?
  {
    if order != [] {
      MissingIds(known, order[1..], records, now);
      if order[0] !in known && order[0] in records {
        DistinctConcat(Missing(order[0], records[order[0]], now), MissingRecords(known, order[1..], records, now));
      }
    }
  }

  lemma ActiveIds(c: Client, now: pos)
    requires Tidy(c)
    ensures DistinctPlain(Active(c.vault, now))
    ensures forall r :: r in Active(c.vault, now) ==> r.id !in c.sync.pendingDeletes && r.deletedAt.None?
  {
    TidyParts(c);
    PasskeyRecordIds(c.vault.sitePasskeys, now);
    DistinctConcat(ItemRecords(c.vault.items, now), PasskeyRecords(c.vault.sitePasskeys, now));
    DistinctConcat(ItemRecords(c.vault.items, now) + PasskeyRecords(c.vault.sitePasskeys, now), [SettingsRecordOf(c.vault, now)]);
  }

  /** A tidy device lists each record once, and only records of the vault without a deletion stamp. */
  lemma PushListIds(c: Client, pendingOrder: seq<RecordId>, recordOrder: seq<RecordId>, now: pos)
    requires Tidy(c) && Distinct(pendingOrder) && Distinct(recordOrder)
    requires forall id :: id in pendingOrder ==> id in c.sync.pendingDeletes
    ensures DistinctPlain(PushList(c.vault, c.sync, pendingOrder, recordOrder, now))
    ensures forall r :: r in PushList(c.vault, c.sync, pendingOrder, recordOrder, now) && r.deletedAt.None? ==> r in Active(c.vault, now)
  {
    var active, pending := Active(c.vault, now), Pending(pendingOrder, c.sync.pendingDeletes);
    ActiveIds(c, now);
    forall i | 0 <= i < |pending| ensures Tombstone(pendingOrder[i], pending[i]) { assert pendingOrder[i] in pendingOrder; }
    DistinctConcat(active, pending);
    var known := active + pending;
    MissingIds(Ids(known), recordOrder, c.sync.records, now);
    forall p, q | p in known && q in MissingRecords(Ids(known), recordOrder, c.sync.records, now) ensures p.id != q.id {
      assert p.id in Ids(known);
    }
    DistinctConcat(known, MissingRecords(Ids(known), recordOrder, c.sync.records, now));
  }

  // ---- the queue

  /** The queue holds distinct records, each with the payload filed under its identifier. */
  ghost predicate QueueFiled(queue: seq<Queued>, plainById: map<RecordId, Plain>) {
    && (forall i, j :: 0 <= i < j < |queue| ==> queue[i].plain.id != queue[j].plain.id)
    && (forall i :: 0 <= i < |queue| ==> queue[i].plain.id in plainById && plainById[queue[i].plain.id] == queue[i].plain)
    && (forall id :: id in plainById ==> plainById[id].id == id)
  }

  lemma {:induction false} BuildFiles(key: VaultKey, account: string, deviceId: string, records: map<RecordId, Meta>, list: seq<Plain>)
    requires DistinctPlain(list)
    ensures var b := Build(key, account, deviceId, records, list);
      && QueueFiled(b.queue, b.plainById)
      && (forall id :: id in b.plainById ==> b.plainById[id] in list)
      && (forall i :: 0 <= i < |b.queue| ==> b.queue[i].plain in list)
  {
    if list != [] {
      var init := list[..|list| - 1];
      BuildFiles(key, account, deviceId, records, init);
      var b := Build(key, account, deviceId, records, init);
      assert forall p :: p in init ==> p.id != list[|list| - 1].id;
    }
  }
}
