/** What a device lists for a push, told by its vault; and that a device with an empty vault, which
    pulls what another listed, ends up with the other's vault. */
module SyncListed {
  import opened Common
  import opened SyncTypes
  import opened SyncServer
  import opened SyncClient
  import opened SyncProtocol
  import opened SyncVault
  import opened SyncTidy
  import opened SyncSurvival
  import opened SyncApplied
  import SyncProper

  // ---- the list

  function StampOr(stamp: Option<Stamp>, now: pos): Stamp {
    match stamp
    case Some(s) => s
    case None => At(now)
  }

  function TextOr(text: Option<string>, default: string): string {
    match text
    case Some(t) => t
    case None => default
  }

  /** The whole synced content of the item, under its own identifier. */
  predicate DescribesItem(r: Plain, item: Item, now: pos) {
    && r.id == ItemRecord(item.itemId) && r.deletedAt == None && r.updatedAt == Some(StampOr(item.updatedAt, now))
    && r.body.ItemBody? && r.body.itemType == item.itemType && r.body.itemName == item.itemName && r.body.fields == item.fields
  }

  /** The passkey has what it takes to have a record: a credential and an item identifier. */
  predicate Identified(q: Passkey) {
    q.credentialId !in {None, Some("")} && q.itemId !in {None, Some("")}
  }

  predicate DescribesPasskey(r: Plain, q: Passkey, now: pos) {
    && q.credentialId.Some? && q.itemId.Some? && r.id == SitePasskeyRecord(q.credentialId.value) && r.deletedAt == None
    && r.body.PasskeyBody? && r.body.itemId == q.itemId.value && r.body.passkeyId == TextOr(q.id, q.credentialId.value)
    && r.body.title == TextOr(q.title, "Saved passkey") && r.body.signCount == (if q.signCount.Some? then q.signCount.value else 0)
    && r.body.createdAt == StampOr(q.createdAt, now) && r.body.rest == q.rest
  }

  predicate DescribesSettings(r: Plain, vault: Vault, now: pos) {
    r.id == SettingsRecord && r.body == SettingsBody(vault.settings) && r.updatedAt == Some(At(now)) && r.deletedAt == None
  }

  /** The record is one of the vault. */
  ghost predicate OfVault(r: Plain, vault: Vault, now: pos) {
    || (exists item :: item in vault.items && DescribesItem(r, item, now))
    || (exists q :: q in vault.sitePasskeys && Identified(q) && DescribesPasskey(r, q, now))
    || DescribesSettings(r, vault, now)
  }

  /** The deletion of a record that the server was known to hold and that nobody listed. */
  predicate Forgotten(r: Plain, sync: Sync, now: pos) {
    && r.id in sync.records && sync.records[r.id].deletedAt == None && r.id !in sync.pendingDeletes && r.deletedAt == Some(now)
    && match r.id
       case ItemRecord(_) => r.body == ItemBody("login", "Deleted item", map["password" := "", "preserveEmptyPassword" := "true"])
       case SitePasskeyRecord(c) => r.body == PasskeyBody(c, TextOr(sync.records[r.id].itemId, "deleted"), "Deleted passkey", 0, At(now), map[])
       case SettingsRecord => false
  }

  lemma IdentifiedHasRecord(q: Passkey)
    ensures Identified(q) <==> HasRecord(q)
  {
  }

  lemma {:induction false} PasskeyIsListed(passkeys: seq<Passkey>, now: pos, q: Passkey)
    requires q in passkeys && Identified(q)
    ensures PasskeyListed(PasskeyRecords(passkeys, now), q, now)
  {
    IdentifiedHasRecord(q);
    if passkeys[0] == q {
      var r := PasskeyRecords(passkeys, now)[0];
      assert DescribesPasskey(r, q, now) && r in PasskeyRecords(passkeys, now);
    } else {
      PasskeyIsListed(passkeys[1..], now, q);
      var r :| r in PasskeyRecords(passkeys[1..], now) && DescribesPasskey(r, q, now);
      assert r in PasskeyRecords(passkeys, now);
    }
  }

  lemma {:induction false} ListedIsPasskey(passkeys: seq<Passkey>, now: pos, r: Plain) returns (q: Passkey)
    requires r in PasskeyRecords(passkeys, now)
    ensures q in passkeys && Identified(q) && DescribesPasskey(r, q, now)
  {
    IdentifiedHasRecord(passkeys[0]);
    if HasRecord(passkeys[0]) && r == RecordOfPasskey(passkeys[0], now) {
      q := passkeys[0];
    } else {
      q := ListedIsPasskey(passkeys[1..], now, r);
    }
  }

  ghost predicate PasskeyListed(list: seq<Plain>, q: Passkey, now: pos) {
    exists r :: r in list && DescribesPasskey(r, q, now)
  }

  /** The vault and the list carry each other. */
  ghost predicate Carried(list: seq<Plain>, vault: Vault, sync: Sync, now: pos) {
    && |vault.items| <= |list| && (forall i :: 0 <= i < |vault.items| ==> DescribesItem(list[i], vault.items[i], now))
    && (forall q :: q in vault.sitePasskeys && Identified(q) ==> PasskeyListed(list, q, now))
    && (exists r :: r in list && DescribesSettings(r, vault, now))
    && (forall id :: id in sync.pendingDeletes ==> sync.pendingDeletes[id] in list)
    && (forall r :: r in list ==> OfVault(r, vault, now) || r in sync.pendingDeletes.Values || Forgotten(r, sync, now))
  }

  lemma ActiveCarries(vault: Vault, now: pos)
    ensures var list := Active(vault, now);
      && |vault.items| <= |list| && (forall i :: 0 <= i < |vault.items| ==> DescribesItem(list[i], vault.items[i], now))
      && (forall q :: q in vault.sitePasskeys && Identified(q) ==> PasskeyListed(list, q, now))
      && (exists r :: r in list && DescribesSettings(r, vault, now))
      && (forall r :: r in list ==> OfVault(r, vault, now))
  {
    var items, passkeys, list := ItemRecords(vault.items, now), PasskeyRecords(vault.sitePasskeys, now), Active(vault, now);
    forall r | r in passkeys ensures OfVault(r, vault, now) {
      var q := ListedIsPasskey(vault.sitePasskeys, now, r);
    }
    forall r | r in items ensures OfVault(r, vault, now) {
      var i :| 0 <= i < |items| && items[i] == r;
      assert vault.items[i] in vault.items && DescribesItem(r, vault.items[i], now);
    }
    forall q | q in vault.sitePasskeys && Identified(q) ensures PasskeyListed(list, q, now) {
      PasskeyIsListed(vault.sitePasskeys, now, q);
      var r :| r in passkeys && DescribesPasskey(r, q, now);
      assert r in list;
    }
    assert SettingsRecordOf(vault, now) in list && DescribesSettings(SettingsRecordOf(vault, now), vault, now);
  }

  lemma {:induction false} MissingForgotten(known: set<RecordId>, order: seq<RecordId>, sync: Sync, now: pos, r: Plain)
    requires sync.pendingDeletes.Keys <= known && r in MissingRecords(known, order, sync.records, now)
    ensures Forgotten(r, sync, now) && r.id !in known
  {
    if order[0] in known || order[0] !in sync.records || r !in Missing(order[0], sync.records[order[0]], now) {
      MissingForgotten(known, order[1..], sync, now, r);
    }
  }

  /** A push lists, first and in order, each item of the vault with its whole content; each passkey with
      identifiers, with every field, the stated default where it has none; the settings; every waiting
      deletion; and besides only the deletions of records that were forgotten. */
  lemma PushListCarriesTheVault(c: Client, pendingOrder: seq<RecordId>, recordOrder: seq<RecordId>, now: pos)
    requires Enumerates(pendingOrder, c.sync.pendingDeletes.Keys) && forall id :: id in pendingOrder ==> id in c.sync.pendingDeletes
    requires forall id :: id in c.sync.pendingDeletes ==> c.sync.pendingDeletes[id].id == id
    ensures Carried(PushList(c.vault, c.sync, pendingOrder, recordOrder, now), c.vault, c.sync, now)
  {
    var active, pending := Active(c.vault, now), Pending(pendingOrder, c.sync.pendingDeletes);
    var known := active + pending;
    var missing := MissingRecords(Ids(known), recordOrder, c.sync.records, now);
    var list := PushList(c.vault, c.sync, pendingOrder, recordOrder, now);
    ActiveCarries(c.vault, now);
    forall id | id in c.sync.pendingDeletes ensures c.sync.pendingDeletes[id] in list && id in Ids(known) {
      assert id in Elements(pendingOrder);
      var i :| 0 <= i < |pendingOrder| && pendingOrder[i] == id;
      assert pending[i] == c.sync.pendingDeletes[id] && pending[i] in known;
    }
    forall r | r in pending ensures r in c.sync.pendingDeletes.Values {
      var i :| 0 <= i < |pending| && pending[i] == r;
      assert pendingOrder[i] in pendingOrder;
    }
    forall r | r in missing ensures Forgotten(r, c.sync, now) {
      MissingForgotten(Ids(known), recordOrder, c.sync, now, r);
    }
    forall q | q in c.vault.sitePasskeys && Identified(q) ensures PasskeyListed(list, q, now) {
      assert PasskeyListed(active, q, now);
      var r :| r in active && DescribesPasskey(r, q, now);
      assert r in list;
    }
    var s :| s in active && DescribesSettings(s, c.vault, now);
    assert s in list;
    forall i | 0 <= i < |c.vault.items| ensures DescribesItem(list[i], c.vault.items[i], now) { assert list[i] == active[i]; }
  }

  // ---- from one device to another

  /** What another device is sent: each record sealed in a row of its own. */
  ghost predicate Seals(row: Row, p: Plain, key: VaultKey, account: string) {
    && row.id == p.id && row.deletedAt == p.deletedAt && row.hash == Hash(p)
    && row.box == Sealed(key, Aad(account, row.id, row.revision), p) && ValidPlain(p)
  }

  ghost predicate SealsAll(rows: seq<Row>, list: seq<Plain>, key: VaultKey, account: string) {
    |rows| == |list| && forall i :: 0 <= i < |rows| ==> Seals(rows[i], list[i], key, account)
  }

  function ApplyAll(vault: Vault, list: seq<Plain>): Vault {
    if list == [] then vault else Apply(ApplyAll(vault, list[..|list| - 1]), list[|list| - 1])
  }

  /** A device that remembers nothing of these records takes in each of them. */
  ghost predicate Untold(sync: Sync, list: seq<Plain>) {
    sync.pendingDeletes == map[] && forall p :: p in list ==> p.id !in sync.records
  }

  lemma OneTakenIn(w: Work, key: VaultKey, account: string, dirty: map<RecordId, Plain>, row: Row, p: Plain, newId: string, now: pos)
    requires Seals(row, p, key, account) && p.id !in w.client.sync.records && w.client.sync.pendingDeletes == map[]
    ensures var c := PullRow(w, key, account, dirty, row, newId, now).client;
      c.vault == Apply(w.client.vault, p) && c.sync.records.Keys == w.client.sync.records.Keys + {p.id} && c.sync.pendingDeletes == map[]
  {
    assert Decrypt(key, account, row) == Some(p);
  }

  /** The device has taken in these records and nothing else. */
  ghost predicate TakenInAll(before: Client, after: Client, list: seq<Plain>) {
    && after.vault == ApplyAll(before.vault, list) && after.sync.pendingDeletes == map[]
    && after.sync.records.Keys == before.sync.records.Keys + Ids(list)
  }

  lemma OneMoreTakenIn(before: Client, w: Work, key: VaultKey, account: string, dirty: map<RecordId, Plain>, row: Row, list: seq<Plain>, newId: string, now: pos)
    requires list != [] && TakenInAll(before, w.client, list[..|list| - 1]) && Seals(row, list[|list| - 1], key, account)
    requires DistinctPlain(list) && Untold(before.sync, list)
    ensures TakenInAll(before, PullRow(w, key, account, dirty, row, newId, now).client, list)
  {
    var n := |list| - 1;
    assert Ids(list) == Ids(list[..n]) + {list[n].id} by { assert list == list[..n] + [list[n]]; }
    assert list[n] in list && list[n].id !in before.sync.records;
    assert list[n].id !in Ids(list[..n]);
    OneTakenIn(w, key, account, dirty, row, list[n], newId, now);
  }

  lemma {:induction false} AllTakenIn(w: Work, key: VaultKey, account: string, dirty: map<RecordId, Plain>, rows: seq<Row>, list: seq<Plain>, newIds: seq<string>, now: pos)
    requires |rows| <= |newIds| && SealsAll(rows, list, key, account) && DistinctPlain(list) && Untold(w.client.sync, list)
    ensures TakenInAll(w.client, PullRows(w, key, account, dirty, rows, newIds, now).client, list)
  {
    if list != [] {
      var n := |list| - 1;
      AllTakenIn(w, key, account, dirty, rows[..n], list[..n], newIds, now);
      OneMoreTakenIn(w.client, PullRows(w, key, account, dirty, rows[..n], newIds, now), key, account, dirty, rows[n], list, newIds[n], now);
    }
  }

  // ---- what comes out

  /** The item as the other device has it: fields normalized, nothing local, and a reference to each of its
      passkeys. */
  ghost predicate Restored(it: Item, was: Item, refs: seq<PasskeyRef>, now: pos) {
    && it.itemId == was.itemId && it.itemType == was.itemType && it.itemName == Trim(was.itemName)
    && FieldsShow(it.fields, was.fields, map[]) && it.updatedAt == Some(StampOr(was.updatedAt, now)) && it.local == map[] && it.passkeys == refs
  }

  /** The references that an item gets from these passkeys. */
  function RefsFor(passkeys: seq<Passkey>, itemId: string, now: pos): seq<PasskeyRef> {
    if passkeys == [] then []
    else
      var n := |passkeys| - 1;
      var q := passkeys[n];
      RefsFor(passkeys[..n], itemId, now)
      + if Identified(q) && q.itemId == Some(itemId)
        then [PasskeyRef(q.credentialId.value, TextOr(q.id, q.credentialId.value), TextOr(q.title, "Saved passkey"), StampOr(q.createdAt, now))] else []
  }

  function WithIdentifiers(passkeys: seq<Passkey>): seq<Passkey> {
    if passkeys == [] then []
    else
      var n := |passkeys| - 1;
      WithIdentifiers(passkeys[..n]) + if Identified(passkeys[n]) then [passkeys[n]] else []
  }

  /** The passkey with every field, the stated default where it had none. */
  ghost predicate SamePasskey(p: Passkey, q: Passkey, now: pos)
    requires Identified(q)
  {
    && p.credentialId == q.credentialId && p.itemId == q.itemId && p.id == Some(TextOr(q.id, q.credentialId.value))
    && p.title == Some(TextOr(q.title, "Saved passkey")) && p.signCount == Some(if q.signCount.Some? then q.signCount.value else 0)
    && p.createdAt == Some(StampOr(q.createdAt, now)) && p.rest == q.rest
  }

  ghost predicate SamePasskeys(after: seq<Passkey>, passkeys: seq<Passkey>, now: pos) {
    var told := WithIdentifiers(passkeys);
    |after| == |told| && forall i :: 0 <= i < |told| ==> Identified(told[i]) && SamePasskey(after[i], told[i], now)
  }

  ghost predicate RestoredItems(after: seq<Item>, items: seq<Item>, passkeys: seq<Passkey>, now: pos) {
    |after| == |items| && forall i :: 0 <= i < |items| ==> Restored(after[i], items[i], RefsFor(passkeys, items[i].itemId, now), now)
  }

  ghost predicate RestoredVault(after: Vault, vault: Vault, now: pos) {
    && RestoredItems(after.items, vault.items, vault.sitePasskeys, now) && SamePasskeys(after.sitePasskeys, vault.sitePasskeys, now)
    && forall k :: FieldOf(after.settings, k) == if k in vault.settings then Some(vault.settings[k]) else FieldOf(DEFAULT_SETTINGS, k)
  }

  lemma ApplyAllMore(vault: Vault, list: seq<Plain>, p: Plain)
    ensures ApplyAll(vault, list + [p]) == Apply(ApplyAll(vault, list), p)
  {
    assert (list + [p])[..|list|] == list;
  }

  lemma {:induction false} ApplyAllConcat(vault: Vault, a: seq<Plain>, b: seq<Plain>)
    ensures ApplyAll(vault, a + b) == ApplyAll(ApplyAll(vault, a), b)
  {
    if b == [] {
      assert a + b == a;
    } else {
      var n := |b| - 1;
      ApplyAllConcat(vault, a, b[..n]);
      assert a + b == (a + b[..n]) + [b[n]];
      ApplyAllMore(vault, a + b[..n], b[n]);
    }
  }

  lemma {:induction false} ItemsRestored(vault: Vault, items: seq<Item>, now: pos)
    requires vault.items == [] && UniqueItems(items) && forall i :: 0 <= i < |items| ==> ValidPlain(RecordOfItem(items[i], now))
    ensures var after := ApplyAll(vault, ItemRecords(items, now));
      after == vault.(items := after.items) && RestoredItems(after.items, items, [], now)
  {
    if items != [] {
      var n := |items| - 1;
      ItemsRestored(vault, items[..n], now);
      var before := ApplyAll(vault, ItemRecords(items[..n], now));
      assert ItemRecords(items, now) == ItemRecords(items[..n], now) + [RecordOfItem(items[n], now)];
      ApplyAllMore(vault, ItemRecords(items[..n], now), RecordOfItem(items[n], now));
      ItemAppended(before, items, now);
    } else {
      assert ItemRecords(items, now) == [];
    }
  }

  lemma ItemAppended(before: Vault, items: seq<Item>, now: pos)
    requires items != [] && UniqueItems(items) && ValidPlain(RecordOfItem(items[|items| - 1], now))
    requires RestoredItems(before.items, items[..|items| - 1], [], now)
    ensures var after := Apply(before, RecordOfItem(items[|items| - 1], now));
      after == before.(items := after.items) && RestoredItems(after.items, items, [], now)
  {
    var n := |items| - 1;
    var p := RecordOfItem(items[n], now);
    var after := Apply(before, p);
    NotBlankTrims(p.body.itemName);
    ApplyTakesItem(before, p);
    forall i | 0 <= i < n ensures before.items[i].itemId != items[n].itemId {
      assert Restored(before.items[i], items[..n][i], [], now);
    }
    var it :| ShowsRow(it, items[n].itemId, p, None) && after.items == before.items + [it];
    forall i | 0 <= i < |items| ensures Restored(after.items[i], items[i], RefsFor([], items[i].itemId, now), now) {
      if i < n { assert Restored(before.items[i], items[..n][i], RefsFor([], items[..n][i].itemId, now), now); }
    }
  }

  lemma {:induction false} PasskeyRecordsMore(passkeys: seq<Passkey>, q: Passkey, now: pos)
    ensures PasskeyRecords(passkeys + [q], now) == PasskeyRecords(passkeys, now) + if HasRecord(q) then [RecordOfPasskey(q, now)] else []
  {
    if passkeys != [] {
      PasskeyRecordsMore(passkeys[1..], q, now);
      assert (passkeys + [q])[1..] == passkeys[1..] + [q];
    }
  }

  lemma {:induction false} ToldOnce(passkeys: seq<Passkey>, q: Passkey)
    requires Identified(q) && forall i :: 0 <= i < |passkeys| && Identified(passkeys[i]) ==> passkeys[i].credentialId != q.credentialId
    ensures forall p :: p in WithIdentifiers(passkeys) ==> Identified(p) && p.credentialId != q.credentialId
  {
    if passkeys != [] { ToldOnce(passkeys[..|passkeys| - 1], q); }
  }

  lemma {:induction false} ReferredOnce(passkeys: seq<Passkey>, q: Passkey, itemId: string, now: pos)
    requires Identified(q) && forall i :: 0 <= i < |passkeys| && Identified(passkeys[i]) ==> passkeys[i].credentialId != q.credentialId
    ensures NoReference(RefsFor(passkeys, itemId, now), q.credentialId.value)
  {
    if passkeys != [] { ReferredOnce(passkeys[..|passkeys| - 1], q, itemId, now); }
  }

  lemma {:induction false} NothingToDrop(passkeys: seq<Passkey>, credentialId: string)
    requires NoCredential(passkeys, credentialId)
    ensures WithoutPasskey(passkeys, credentialId) == passkeys
  {
    if passkeys != [] { NothingToDrop(passkeys[1..], credentialId); }
  }

  lemma {:induction false} NoReferenceToDrop(refs: seq<PasskeyRef>, credentialId: string)
    requires NoReference(refs, credentialId)
    ensures WithoutRef(refs, credentialId) == refs
  {
    if refs != [] { NoReferenceToDrop(refs[1..], credentialId); }
  }

  /** No earlier passkey has the credential of the last one. */
  ghost predicate LastIsNew(passkeys: seq<Passkey>) {
    passkeys != []
    && var n := |passkeys| - 1;
       Identified(passkeys[n]) ==> forall i :: 0 <= i < n && Identified(passkeys[i]) ==> passkeys[i].credentialId != passkeys[n].credentialId
  }

  lemma RelinkedMore(it: Item, was: Item, passkeys: seq<Passkey>, now: pos)
    requires LastIsNew(passkeys) && Identified(passkeys[|passkeys| - 1]) && HasRecord(passkeys[|passkeys| - 1])
    requires Restored(it, was, RefsFor(passkeys[..|passkeys| - 1], was.itemId, now), now)
    ensures var q := passkeys[|passkeys| - 1];
      Restored(Relink(it, q.credentialId.value, RecordOfPasskey(q, now).body, false), was, RefsFor(passkeys, was.itemId, now), now)
  {
    var n := |passkeys| - 1;
    ReferredOnce(passkeys[..n], passkeys[n], was.itemId, now);
    NoReferenceToDrop(it.passkeys, passkeys[n].credentialId.value);
  }

  lemma StoredMore(after: seq<Passkey>, passkeys: seq<Passkey>, now: pos, p: Passkey)
    requires LastIsNew(passkeys) && Identified(passkeys[|passkeys| - 1])
    requires SamePasskeys(after, passkeys[..|passkeys| - 1], now) && SamePasskey(p, passkeys[|passkeys| - 1], now)
    ensures NoCredential(after, passkeys[|passkeys| - 1].credentialId.value) && SamePasskeys(after + [p], passkeys, now)
  {
    var n := |passkeys| - 1;
    ToldOnce(passkeys[..n], passkeys[n]);
    var told := WithIdentifiers(passkeys[..n]);
    forall i | 0 <= i < |after| ensures after[i].credentialId != passkeys[n].credentialId { assert told[i] in told; }
  }

  lemma PasskeyAppended(before: Vault, items: seq<Item>, passkeys: seq<Passkey>, now: pos)
    requires LastIsNew(passkeys) && Identified(passkeys[|passkeys| - 1]) && HasRecord(passkeys[|passkeys| - 1])
    requires RestoredItems(before.items, items, passkeys[..|passkeys| - 1], now) && SamePasskeys(before.sitePasskeys, passkeys[..|passkeys| - 1], now)
    ensures var after := Apply(before, RecordOfPasskey(passkeys[|passkeys| - 1], now));
      after.settings == before.settings && RestoredItems(after.items, items, passkeys, now) && SamePasskeys(after.sitePasskeys, passkeys, now)
  {
    var n := |passkeys| - 1;
    var q := passkeys[n];
    var r := RecordOfPasskey(q, now);
    var after := Apply(before, r);
    var p := Passkey(Some(q.credentialId.value), Some(r.body.itemId), Some(r.body.passkeyId), Some(r.body.title), Some(r.body.signCount), Some(r.body.createdAt), r.body.rest);
    StoredMore(before.sitePasskeys, passkeys, now, p);
    NothingToDrop(before.sitePasskeys, q.credentialId.value);
    assert after.sitePasskeys == before.sitePasskeys + [p];
    forall i | 0 <= i < |items| ensures Restored(after.items[i], items[i], RefsFor(passkeys, items[i].itemId, now), now) {
      RelinkedMore(before.items[i], items[i], passkeys, now);
    }
  }

  lemma SkippedPasskey(before: Vault, items: seq<Item>, passkeys: seq<Passkey>, now: pos)
    requires passkeys != [] && !Identified(passkeys[|passkeys| - 1])
    requires RestoredItems(before.items, items, passkeys[..|passkeys| - 1], now) && SamePasskeys(before.sitePasskeys, passkeys[..|passkeys| - 1], now)
    ensures RestoredItems(before.items, items, passkeys, now) && SamePasskeys(before.sitePasskeys, passkeys, now)
  {
    forall i | 0 <= i < |items| ensures Restored(before.items[i], items[i], RefsFor(passkeys, items[i].itemId, now), now) {
      assert RefsFor(passkeys, items[i].itemId, now) == RefsFor(passkeys[..|passkeys| - 1], items[i].itemId, now);
    }
  }

  lemma {:induction false} PasskeysRestored(vault: Vault, items: seq<Item>, passkeys: seq<Passkey>, now: pos)
    requires vault.sitePasskeys == [] && UniquePasskeys(passkeys) && RestoredItems(vault.items, items, [], now)
    ensures var after := ApplyAll(vault, PasskeyRecords(passkeys, now));
      after.settings == vault.settings && RestoredItems(after.items, items, passkeys, now) && SamePasskeys(after.sitePasskeys, passkeys, now)
  {
    if passkeys != [] {
      var n := |passkeys| - 1;
      var q := passkeys[n];
      PasskeysRestored(vault, items, passkeys[..n], now);
      PasskeyRecordsMore(passkeys[..n], q, now);
      assert passkeys[..n] + [q] == passkeys;
      IdentifiedHasRecord(q);
      var before := ApplyAll(vault, PasskeyRecords(passkeys[..n], now));
      if Identified(q) {
        forall i | 0 <= i < n && Identified(passkeys[i]) ensures passkeys[i].credentialId != q.credentialId { IdentifiedHasRecord(passkeys[i]); }
        PasskeyAppended(before, items, passkeys, now);
        ApplyAllMore(vault, PasskeyRecords(passkeys[..n], now), RecordOfPasskey(q, now));
      } else {
        assert PasskeyRecords(passkeys[..n], now) + [] == PasskeyRecords(passkeys[..n], now);
        SkippedPasskey(before, items, passkeys, now);
      }
    }
  }

  lemma ListRestores(vault: Vault, e: Vault, now: pos)
    requires e.items == [] && e.sitePasskeys == [] && UniqueItems(vault.items) && UniquePasskeys(vault.sitePasskeys)
    requires forall p :: p in Active(vault, now) ==> ValidPlain(p)
    ensures RestoredVault(ApplyAll(e, Active(vault, now)), vault, now)
  {
    var items, passkeys, settings := ItemRecords(vault.items, now), PasskeyRecords(vault.sitePasskeys, now), SettingsRecordOf(vault, now);
    forall i | 0 <= i < |vault.items| ensures ValidPlain(RecordOfItem(vault.items[i], now)) {
      assert items[i] in Active(vault, now);
    }
    ItemsRestored(e, vault.items, now);
    var first := ApplyAll(e, items);
    PasskeysRestored(first, vault.items, vault.sitePasskeys, now);
    ApplyAllConcat(e, items, passkeys);
    ApplyAllMore(e, items + passkeys, settings);
    var second := ApplyAll(first, passkeys);
    assert ApplyAll(e, Active(vault, now)) == Apply(second, settings);
    assert SettingsTaken(second, Apply(second, settings), settings);
  }

  /** Two devices. One lists its vault, the other, whose vault is empty and who has heard of none of these
      records, pulls them: afterwards it has the same items, normalized, with references to their
      passkeys, the same passkeys with every field, and the same settings. */
  lemma RoundTrip(vault: Vault, listed: pos, e: Work, key: VaultKey, account: string, dirty: map<RecordId, Plain>, rows: seq<Row>, newIds: seq<string>, now: pos)
    requires UniqueItems(vault.items) && UniquePasskeys(vault.sitePasskeys)
    requires e.client.vault.items == [] && e.client.vault.sitePasskeys == [] && Untold(e.client.sync, Active(vault, listed))
    requires |rows| <= |newIds| && SealsAll(rows, Active(vault, listed), key, account)
    ensures RestoredVault(PullRows(e, key, account, dirty, rows, newIds, now).client.vault, vault, listed)
  {
    var list := Active(vault, listed);
    var c := Client("", vault, Sync(None, 0, 0, map[], map[]));
    TidyParts(c);
    ActiveIds(c, listed);
    forall p | p in list ensures ValidPlain(p) {
      var i :| 0 <= i < |list| && list[i] == p;
      assert Seals(rows[i], list[i], key, account);
    }
    AllTakenIn(e, key, account, dirty, rows, list, newIds, now);
    ListRestores(vault, e.client.vault, listed);
  }

  // ---- what is told of a deletion

  /** The server is to be told: the device is signed in, or met the record in a sync. */
  predicate Due(records: map<RecordId, Meta>, signedIn: bool, id: RecordId) {
    signedIn || id in records
  }

  predicate OfCredential(q: Passkey, id: RecordId) {
    id.SitePasskeyRecord? && id.credentialId != "" && q.credentialId == Some(id.credentialId)
  }

  predicate DescribesDeletedPasskey(r: Plain, q: Passkey, id: RecordId, now: pos) {
    && id.SitePasskeyRecord? && r.id == id && r.deletedAt == Some(now) && r.updatedAt == None && r.body.PasskeyBody?
    && r.body.passkeyId == TextOr(q.id, id.credentialId) && r.body.itemId == TextOr(q.itemId, "deleted") && r.body.title == TextOr(q.title, "Deleted passkey")
    && r.body.signCount == 0 && r.body.createdAt == At(now)
    && r.body.rest == if "transports" in q.rest then map["transports" := q.rest["transports"]] else map[]
  }

  /** The type and name of the item as far as there is one; nothing of what it held. */
  ghost predicate DescribesDeletedItem(r: Plain, items: seq<Item>, itemId: string, now: pos) {
    && r.id == ItemRecord(itemId) && r.deletedAt == Some(now) && r.updatedAt == Some(At(now)) && r.body.ItemBody?
    && r.body.fields == map["password" := "", "preserveEmptyPassword" := "true"]
    && if HasNo(items, itemId) then r.body.itemType == "login" && r.body.itemName == "Deleted item"
       else exists i: nat :: FirstAt(items, itemId, i) && r.body.itemType == items[i].itemType
                             && r.body.itemName == if items[i].itemName != "" then items[i].itemName else "Deleted item"
  }

  ghost predicate PasskeyDeletionWaits(deleted: seq<Passkey>, pending: map<RecordId, Plain>, id: RecordId, now: pos) {
    id in pending && exists q :: q in deleted && OfCredential(q, id) && DescribesDeletedPasskey(pending[id], q, id, now)
  }

  predicate SameAt(before: map<RecordId, Plain>, after: map<RecordId, Plain>, id: RecordId) {
    (id in after <==> id in before) && (id in before && id in after ==> after[id] == before[id])
  }

  lemma {:induction false} MarksTell(pending: map<RecordId, Plain>, records: map<RecordId, Meta>, signedIn: bool, deleted: seq<Passkey>, now: pos, id: RecordId)
    ensures var after := MarkPasskeys(pending, records, signedIn, deleted, now);
      if Due(records, signedIn, id) && (exists q :: q in deleted && OfCredential(q, id)) then PasskeyDeletionWaits(deleted, after, id, now)
      else SameAt(pending, after, id)
  {
    if deleted != [] {
      var init, q := deleted[..|deleted| - 1], deleted[|deleted| - 1];
      MarksTell(pending, records, signedIn, init, now, id);
      assert forall x :: x in deleted <==> x in init || x == q by { assert deleted == init + [q]; }
      if Due(records, signedIn, id) && OfCredential(q, id) {
        assert DescribesDeletedPasskey(DeletedPasskeyRecord(q, id.credentialId, now), q, id, now);
      }
    }
  }

  lemma {:induction false} FirstItemIs(items: seq<Item>, itemId: string)
    ensures FirstItem(items, itemId).None? <==> HasNo(items, itemId)
    ensures FirstItem(items, itemId).Some? ==> exists i: nat :: FirstAt(items, itemId, i) && FirstItem(items, itemId) == Some(items[i])
  {
    if items != [] {
      FirstItemIs(items[1..], itemId);
      assert items == [items[0]] + items[1..];
      if items[0].itemId == itemId {
        assert FirstAt(items, itemId, 0);
      } else if i: nat :| FirstAt(items[1..], itemId, i) && FirstItem(items[1..], itemId) == Some(items[1..][i]) {
        assert FirstAt(items, itemId, i + 1);
      }
    }
  }

  /** Deleting an item leaves a deletion waiting for its own record, and for those of its passkeys that
      have a credential identifier, if the server is to be told of the record. A waiting deletion
      tells what kind of record it is of and what it was called, and nothing else that it held. All
      other deletions wait on as they were. */
  lemma DeletionTellsExactly(c: Client, itemId: string, signedIn: bool, now: pos, id: RecordId)
    requires UniquePasskeys(c.vault.sitePasskeys)
    ensures var before, after := c.sync.pendingDeletes, DeleteItem(c, itemId, signedIn, now).sync.pendingDeletes;
      if id == ItemRecord(itemId) && Due(c.sync.records, signedIn, id) then id in after && DescribesDeletedItem(after[id], c.vault.items, itemId, now)
      else if Due(c.sync.records, signedIn, id) && (exists q :: q in c.vault.sitePasskeys && q.itemId == Some(itemId) && OfCredential(q, id))
      then exists q :: q in c.vault.sitePasskeys && q.itemId == Some(itemId) && OfCredential(q, id) && id in after && DescribesDeletedPasskey(after[id], q, id, now)
      else SameAt(before, after, id)
  {
    var deleted := PasskeysOf(c.vault.sitePasskeys, itemId);
    SyncProper.DeletedListed(c.vault.sitePasskeys, itemId);
    MarksTell(MarkItem(c, itemId, signedIn, now), c.sync.records, signedIn, deleted, now, id);
    FirstItemIs(c.vault.items, itemId);
  }
}
