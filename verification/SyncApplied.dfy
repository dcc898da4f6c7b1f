/** What a pulled row leaves in the vault, told by the row and the vault before it. */
module SyncApplied {
  import opened Common
  import opened Sublists
  import opened SyncTypes
  import opened SyncServer
  import opened SyncServerFacts
  import opened SyncClient
  import opened SyncProtocol
  import opened SyncInvariant
  import opened SyncVault
  import opened SyncSteps
  import opened SyncTheorems
  import SyncEdits
  import opened SyncSurvival

  // ---- items

  function FieldOf(fields: map<string, string>, k: string): Option<string> {
    if k in fields then Some(fields[k]) else None
  }

  /** What every vault item has where nobody ever gave a value. */
  function BlankField(k: string): Option<string> {
    if k == "username" then Some("")
    else if k == "websites" || k == "customFields" || k == "recoveryCodes" then Some("[]")
    else None
  }

  /** A field of the row wins, an empty password meaning none; a field that the row lacks stays as it was. */
  predicate FieldShows(after: map<string, string>, row: map<string, string>, was: map<string, string>, k: string) {
    FieldOf(after, k) ==
      if k in row then (if k == "password" && row[k] == "" then None else Some(row[k]))
      else if k in was then Some(was[k])
      else BlankField(k)
  }

  ghost predicate FieldsShow(after: map<string, string>, row: map<string, string>, was: map<string, string>) {
    forall k :: FieldShows(after, row, was, k)
  }

  /** The item as the row describes it, over what it was before, if it was there. */
  ghost predicate ShowsRow(it: Item, itemId: string, q: Plain, was: Option<Item>)
    requires q.body.ItemBody?
  {
    && it.itemId == itemId && it.itemType == q.body.itemType && it.itemName == Trim(q.body.itemName) && it.updatedAt == q.updatedAt
    && FieldsShow(it.fields, q.body.fields, if was.Some? then was.value.fields else map[])
    && (if was.Some? then it.local == was.value.local && it.passkeys == was.value.passkeys else it.local == map[] && it.passkeys == [])
  }

  /** The first item with the identifier. */
  predicate FirstAt(items: seq<Item>, itemId: string, i: nat) {
    i < |items| && items[i].itemId == itemId && forall j :: 0 <= j < i ==> items[j].itemId != itemId
  }

  predicate HasNo(items: seq<Item>, itemId: string) {
    forall i :: 0 <= i < |items| ==> items[i].itemId != itemId
  }

  /** The items with another identifier, from their places `at`. */
  ghost predicate LeftAt(before: seq<Item>, itemId: string, after: seq<Item>, at: seq<nat>) {
    Picks(before, Sparing((x: Item) => x.itemId == itemId), after, at)
  }

  /** A deletion takes the item out and leaves the others in order; a payload changes the item in its place, or adds it
      at the end. */
  ghost predicate ItemTaken(before: seq<Item>, after: seq<Item>, itemId: string, q: Plain)
    requires q.body.ItemBody?
  {
    if q.deletedAt.Some? then
      HasNo(after, itemId) && exists at :: LeftAt(before, itemId, after, at)
    else if HasNo(before, itemId) then
      exists it :: ShowsRow(it, itemId, q, None) && after == before + [it]
    else
      exists i: nat, it :: FirstAt(before, itemId, i) && ShowsRow(it, itemId, q, Some(before[i])) && after == before[i := it]
  }

  lemma OverlayShows(row: map<string, string>, was: map<string, string>, k: string)
    ensures FieldShows(Overlay(row, was), row, was, k)
  {
  }

  lemma UpdatedShows(was: Item, q: Plain)
    requires q.body.ItemBody? && Trim(q.body.itemName) != ""
    ensures ShowsRow(Updated(was, q.body, q.updatedAt), was.itemId, q, Some(was))
  {
    forall k ensures FieldShows(Overlay(q.body.fields, was.fields), q.body.fields, was.fields, k) { OverlayShows(q.body.fields, was.fields, k); }
  }

  lemma NewShows(itemId: string, q: Plain)
    requires q.body.ItemBody? && Trim(q.body.itemName) != ""
    ensures ShowsRow(NewItem(itemId, q.body, q.updatedAt), itemId, q, None)
  {
    forall k ensures FieldShows(Overlay(q.body.fields, map[]), q.body.fields, map[], k) { OverlayShows(q.body.fields, map[], k); }
  }

  lemma {:induction false} UpsertTaken(items: seq<Item>, itemId: string, body: Body, at: Option<Stamp>) returns (i: nat)
    requires body.ItemBody?
    ensures i <= |items| && forall j :: 0 <= j < i ==> items[j].itemId != itemId
    ensures if i == |items| then Upsert(items, itemId, body, at) == items + [NewItem(itemId, body, at)]
            else items[i].itemId == itemId && Upsert(items, itemId, body, at) == items[i := Updated(items[i], body, at)]
  {
    if items == [] || items[0].itemId == itemId {
      i := 0;
    } else {
      i := UpsertTaken(items[1..], itemId, body, at);
      i := i + 1;
      assert items == [items[0]] + items[1..];
    }
  }

  lemma {:induction false} WithoutPicks(items: seq<Item>, itemId: string) returns (at: seq<nat>)
    ensures Picks(items, Sparing((x: Item) => x.itemId == itemId), WithoutItem(items, itemId), at)
  {
    at := [];
    if items != [] {
      at := WithoutPicks(items[1..], itemId);
      at := PicksFirst(items, Sparing((x: Item) => x.itemId == itemId), WithoutItem(items[1..], itemId), at);
    }
  }

  lemma WithoutTaken(items: seq<Item>, itemId: string)
    ensures HasNo(WithoutItem(items, itemId), itemId)
    ensures exists at :: LeftAt(items, itemId, WithoutItem(items, itemId), at)
  {
    var left := WithoutItem(items, itemId);
    forall i | 0 <= i < |left| ensures left[i].itemId != itemId { WithoutExactly(items, itemId, left[i]); }
    var at := WithoutPicks(items, itemId);
    assert LeftAt(items, itemId, left, at);
  }

  lemma ApplyTakesItem(vault: Vault, q: Plain)
    requires q.id.ItemRecord? && q.body.ItemBody? && Trim(q.body.itemName) != ""
    ensures ItemTaken(vault.items, Apply(vault, q).items, q.id.itemId, q)
    ensures Apply(vault, q) == vault.(items := Apply(vault, q).items)
  {
    var itemId := q.id.itemId;
    if q.deletedAt.Some? {
      WithoutTaken(vault.items, itemId);
    } else {
      var i := UpsertTaken(vault.items, itemId, q.body, q.updatedAt);
      if i == |vault.items| {
        NewShows(itemId, q);
      } else {
        UpdatedShows(vault.items[i], q);
        assert FirstAt(vault.items, itemId, i);
      }
    }
  }

  // ---- settings

  ghost predicate SettingsTaken(before: Vault, after: Vault, q: Plain)
    requires q.body.SettingsBody?
  {
    if q.deletedAt.Some? then after == before
    else
      && after == before.(settings := after.settings)
      && forall k :: FieldOf(after.settings, k) == if k in q.body.settings then Some(q.body.settings[k]) else FieldOf(DEFAULT_SETTINGS, k)
  }

  // ---- passkeys

  predicate NoCredential(passkeys: seq<Passkey>, credentialId: string) {
    forall i :: 0 <= i < |passkeys| ==> passkeys[i].credentialId != Some(credentialId)
  }

  predicate NoReference(refs: seq<PasskeyRef>, credentialId: string) {
    forall i :: 0 <= i < |refs| ==> refs[i].credentialId != credentialId
  }

  /** `left` is `all` without the records of this credential. */
  ghost predicate OtherPasskeys(all: seq<Passkey>, left: seq<Passkey>, credentialId: string) {
    NoCredential(left, credentialId) && forall q: Passkey :: q.credentialId != Some(credentialId) ==> multiset(left)[q] == multiset(all)[q]
  }

  ghost predicate OtherReferences(all: seq<PasskeyRef>, left: seq<PasskeyRef>, credentialId: string) {
    NoReference(left, credentialId) && forall r: PasskeyRef :: r.credentialId != credentialId ==> multiset(left)[r] == multiset(all)[r]
  }

  /** The passkey's item, and it alone, refers to it, once. */
  ghost predicate Referred(before: Item, after: Item, credentialId: string, q: Plain)
    requires q.body.PasskeyBody?
  {
    && after == before.(passkeys := after.passkeys)
    && if q.deletedAt.None? && before.itemId == q.body.itemId then
         after.passkeys != []
         && var n := |after.passkeys| - 1;
            && after.passkeys[n] == PasskeyRef(credentialId, q.body.passkeyId, q.body.title, q.body.createdAt)
            && OtherReferences(before.passkeys, after.passkeys[..n], credentialId)
       else OtherReferences(before.passkeys, after.passkeys, credentialId)
  }

  ghost predicate PasskeyTaken(before: Vault, after: Vault, credentialId: string, q: Plain)
    requires q.body.PasskeyBody?
  {
    && after.settings == before.settings && |after.items| == |before.items|
    && (forall i :: 0 <= i < |before.items| ==> Referred(before.items[i], after.items[i], credentialId, q))
    && if q.deletedAt.Some? then OtherPasskeys(before.sitePasskeys, after.sitePasskeys, credentialId)
       else
         after.sitePasskeys != []
         && var n := |after.sitePasskeys| - 1;
            && OtherPasskeys(before.sitePasskeys, after.sitePasskeys[..n], credentialId)
            && PasskeyShows(after.sitePasskeys[n], credentialId, q)
  }

  predicate PasskeyShows(p: Passkey, credentialId: string, q: Plain)
    requires q.body.PasskeyBody?
  {
    && p.credentialId == Some(credentialId) && p.itemId == Some(q.body.itemId) && p.id == Some(q.body.passkeyId)
    && p.title == Some(q.body.title) && p.signCount == Some(q.body.signCount) && p.createdAt == Some(q.body.createdAt) && p.rest == q.body.rest
  }

  lemma {:induction false} WithoutPasskeyTaken(passkeys: seq<Passkey>, credentialId: string)
    ensures OtherPasskeys(passkeys, WithoutPasskey(passkeys, credentialId), credentialId)
  {
    if passkeys != [] {
      WithoutPasskeyTaken(passkeys[1..], credentialId);
      assert passkeys == [passkeys[0]] + passkeys[1..];
    }
  }

  lemma {:induction false} WithoutRefTaken(refs: seq<PasskeyRef>, credentialId: string)
    ensures OtherReferences(refs, WithoutRef(refs, credentialId), credentialId)
  {
    if refs != [] {
      WithoutRefTaken(refs[1..], credentialId);
      assert refs == [refs[0]] + refs[1..];
    }
  }

  lemma RelinkRefers(item: Item, credentialId: string, q: Plain)
    requires q.body.PasskeyBody?
    ensures Referred(item, Relink(item, credentialId, q.body, q.deletedAt.Some?), credentialId, q)
  {
    WithoutRefTaken(item.passkeys, credentialId);
    var refs := WithoutRef(item.passkeys, credentialId);
    var after := Relink(item, credentialId, q.body, q.deletedAt.Some?);
    if q.deletedAt.None? && item.itemId == q.body.itemId { assert after.passkeys[..|after.passkeys| - 1] == refs; }
  }

  lemma ApplyTakesPasskey(vault: Vault, q: Plain)
    requires q.id.SitePasskeyRecord? && q.body.PasskeyBody?
    ensures PasskeyTaken(vault, Apply(vault, q), q.id.credentialId, q)
  {
    var credentialId, after := q.id.credentialId, Apply(vault, q);
    WithoutPasskeyTaken(vault.sitePasskeys, credentialId);
    forall i | 0 <= i < |vault.items| ensures Referred(vault.items[i], after.items[i], credentialId, q) {
      RelinkRefers(vault.items[i], credentialId, q);
    }
    if q.deletedAt.None? { assert after.sitePasskeys[..|after.sitePasskeys| - 1] == WithoutPasskey(vault.sitePasskeys, credentialId); }
  }

  // ---- any readable row

  ghost predicate Taken(before: Vault, after: Vault, q: Plain) {
    match q.body
    case ItemBody(_, _, _) => q.id.ItemRecord? && ItemTaken(before.items, after.items, q.id.itemId, q) && after == before.(items := after.items)
    case SettingsBody(_) => q.id.SettingsRecord? && SettingsTaken(before, after, q)
    case PasskeyBody(_, _, _, _, _, _) => q.id.SitePasskeyRecord? && PasskeyTaken(before, after, q.id.credentialId, q)
  }

  lemma NotBlankTrims(s: string)
    requires !Blank(s)
    ensures Trim(s) != ""
  {
    TrimStartBlank(s);
    TrimEndKeepsStart(TrimStart(s));
  }

  /** Applying a record that a device trusts leaves of it what it says, and of everything else what was. */
  lemma ApplyTakes(vault: Vault, q: Plain)
    requires ValidPlain(q)
    ensures Taken(vault, Apply(vault, q), q)
  {
    match q.body
    case ItemBody(_, _, _) => NotBlankTrims(q.body.itemName); ApplyTakesItem(vault, q);
    case PasskeyBody(_, _, _, _, _, _) => ApplyTakesPasskey(vault, q);
    case SettingsBody(_) =>
  }

  /** A copy of the displaced edit, at the end of the list. */
  ghost predicate WithCopy(before: Vault, mid: Vault, edit: Plain, newId: string) {
    exists copy: Item :: copy.itemId == newId && CopyOf(copy, edit) && mid == before.(items := before.items + [copy])
  }

  /** The edit that the row displaces: one of a record whose acknowledged digest is known. */
  predicate Displaces(w: Work, dirty: map<RecordId, Plain>, row: Row) {
    row.id in dirty && Hash(dirty[row.id]) != row.hash && row.id in w.client.sync.records && w.client.sync.records[row.id].hash != NoHash
  }

  /** What a row that is news to the device leaves: the copy of a displaced item edit, then the row's
      payload; the row's version is remembered, and only a displaced edit counts as a conflict. */
  ghost predicate TakenIn(w: Work, r: Work, dirty: map<RecordId, Plain>, row: Row, q: Plain, newId: string) {
    && (exists mid: Vault :: Taken(mid, r.client.vault, q)
          && if Displaces(w, dirty, row) && Copyable(dirty[row.id]) then WithCopy(w.client.vault, mid, dirty[row.id], newId) else mid == w.client.vault)
    && r.client.sync.conflictCount == w.client.sync.conflictCount + (if Displaces(w, dirty, row) then 1 else 0)
    && r.client.sync.pendingDeletes == w.client.sync.pendingDeletes && r.failures == w.failures
    && Remembers(w.client.sync.records, r.client.sync.records, row, row.revision, row.hash)
  }

  /** Only what is remembered of this record changes. */
  ghost predicate Remembers(before: map<RecordId, Meta>, after: map<RecordId, Meta>, row: Row, revision: nat, hash: ContentHash) {
    && row.id in after && after == before[row.id := after[row.id]]
    && var m := after[row.id]; m.revision == revision && m.hash == hash && m.serverSequence == row.serverSequence && m.deletedAt == row.deletedAt
  }

  /** A row that is not news, or cannot be opened, or whose record awaits deletion, leaves the vault as it
      is. A deletion that the server has too stops waiting. */
  ghost predicate HeldBack(w: Work, r: Work, row: Row, q: Option<Plain>) {
    var sync, after := w.client.sync, r.client.sync;
    && r.client.vault == w.client.vault
    && (if row.id in sync.records && sync.records[row.id].hash == row.hash then
          && Remembers(sync.records, after.records, row, Max(sync.records[row.id].revision, row.revision), row.hash)
          && after.pendingDeletes == (if row.deletedAt.Some? then sync.pendingDeletes - {row.id} else sync.pendingDeletes)
          && after.conflictCount == sync.conflictCount && r.failures == w.failures
        else if q.None? then
          && Remembers(sync.records, after.records, row, row.revision, NoHash)
          && after.pendingDeletes == sync.pendingDeletes && after.conflictCount == sync.conflictCount && r.failures == w.failures + 1
        else if row.id in sync.pendingDeletes then
          && Remembers(sync.records, after.records, row, row.revision, row.hash)
          && after.pendingDeletes == (if q.value.deletedAt.Some? then sync.pendingDeletes - {row.id} else sync.pendingDeletes)
          && after.conflictCount == sync.conflictCount && r.failures == w.failures
        else
          after == sync.(conflictCount := sync.conflictCount + 1) && r.failures == w.failures)
  }

  /** The row has to be looked at, can be opened, awaits no deletion here and is not older than what the
      device knows. */
  predicate IsNews(w: Work, key: VaultKey, account: string, row: Row) {
    var sync := w.client.sync;
    && !(row.id in sync.records && sync.records[row.id].hash == row.hash)
    && Decrypt(key, account, row).Some? && row.id !in sync.pendingDeletes
    && !(row.id in sync.records && sync.records[row.id].hash != NoHash && row.revision <= sync.records[row.id].revision)
  }

  /** Every pulled row is either taken into the vault or held back, and this is what each does. */
  lemma PullTakesExactlyNews(w: Work, key: VaultKey, account: string, dirty: map<RecordId, Plain>, row: Row, newId: string, now: pos)
    ensures var r := PullRow(w, key, account, dirty, row, newId, now); var q := Decrypt(key, account, row);
      if IsNews(w, key, account, row) then TakenIn(w, r, dirty, row, q.value, newId) else HeldBack(w, r, row, q)
  {
    var q := Decrypt(key, account, row);
    if IsNews(w, key, account, row) {
      NewsIsTaken(w, dirty, row, q.value, newId, now);
      assert PullRow(w, key, account, dirty, row, newId, now) == PullFresh(w, dirty, row, q.value, newId, now);
    }
  }

  lemma NewsIsTaken(w: Work, dirty: map<RecordId, Plain>, row: Row, q: Plain, newId: string, now: pos)
    requires ValidPlain(q) && q.id == row.id
    ensures TakenIn(w, PullFresh(w, dirty, row, q, newId, now), dirty, row, q, newId)
  {
    var c := CopyFirst(w, dirty, row, newId, now);
    CopyFirstFrame(w, dirty, row, newId, now);
    ApplyTakes(c.client.vault, q);
    assert Displaces(w, dirty, row) <==> NeedsCopy(w.client.sync, dirty, row);
    if Displaces(w, dirty, row) && Copyable(dirty[row.id]) {
      CopyCarries(dirty[row.id], newId, now);
      assert WithCopy(w.client.vault, c.client.vault, dirty[row.id], newId);
    }
  }

  // ---- a refused push

  /** A refused deletion leaves the vault and waits on unless the server's row is a deletion too. A
      refused edit is copied first, as far as it can be, and then the server's row is taken. */
  ghost predicate RefusalTaken(w: Work, r: Work, local: Option<Plain>, row: Row, q: Option<Plain>, newId: string) {
    var sync, after := w.client.sync, r.client.sync;
    && after.conflictCount == sync.conflictCount + (if local.Some? then 1 else 0)
    && r.failures == w.failures + (if q.None? then 1 else 0)
    && (if q.Some? then Remembers(sync.records, after.records, row, row.revision, row.hash) else after.records == sync.records)
    && if local.Some? && local.value.deletedAt.Some? then
         r.client.vault == w.client.vault
         && after.pendingDeletes == if q.Some? && q.value.deletedAt.Some? then sync.pendingDeletes - {row.id} else sync.pendingDeletes
       else
         after.pendingDeletes == sync.pendingDeletes
         && exists mid: Vault :: Copied(w.client.vault, mid, local, newId) && TakenOver(mid, r.client.vault, q)
  }

  ghost predicate Copied(before: Vault, mid: Vault, local: Option<Plain>, newId: string) {
    if local.Some? && Copyable(local.value) then WithCopy(before, mid, local.value, newId) else mid == before
  }

  ghost predicate TakenOver(mid: Vault, after: Vault, q: Option<Plain>) {
    if q.Some? then Taken(mid, after, q.value) else after == mid
  }

  lemma RefusedDeletion(w: Work, key: VaultKey, account: string, local: Plain, row: Row, newId: string)
    requires local.deletedAt.Some?
    ensures RefusalTaken(w, RefusedDelete(w, key, account, row), Some(local), row, Decrypt(key, account, row), newId)
  {
  }

  lemma RefusedEditTaken(w: Work, key: VaultKey, account: string, local: Option<Plain>, row: Row, newId: string, now: pos)
    requires local.Some? ==> local.value.deletedAt.None?
    ensures RefusalTaken(w, RefusedEdit(w, key, account, local, row, newId, now), local, row, Decrypt(key, account, row), newId)
  {
    var q := Decrypt(key, account, row);
    var mid := if local.Some? then Preserve(w.client.vault, local.value, newId, now) else w.client.vault;
    var after := RefusedEdit(w, key, account, local, row, newId, now).client.vault;
    assert Copied(w.client.vault, mid, local, newId) by {
      if local.Some? && Copyable(local.value) {
        CopyCarries(local.value, newId, now);
        assert WithCopy(w.client.vault, mid, local.value, newId);
      }
    }
    assert TakenOver(mid, after, q) by {
      if q.Some? { ApplyTakes(mid, q.value); }
    }
  }

  /** Working through one conflict of a push answer. */
  lemma RefusalTakesExactly(w: Work, key: VaultKey, account: string, plainById: map<RecordId, Plain>, row: Row, newId: string, now: pos)
    ensures RefusalTaken(w, TakeConflict(w, key, account, plainById, row, newId, now),
                         if row.id in plainById then Some(plainById[row.id]) else None, row, Decrypt(key, account, row), newId)
  {
    var local := if row.id in plainById then Some(plainById[row.id]) else None;
    if local.Some? && local.value.deletedAt.Some? {
      RefusedDeletion(w, key, account, local.value, row, newId);
    } else {
      RefusedEditTaken(w, key, account, local, row, newId, now);
    }
  }

  // ---- a whole page

  /** The vault has what the row says. */
  ghost predicate Holds(vault: Vault, q: Plain) {
    match q.body
    case ItemBody(_, _, _) =>
      q.id.ItemRecord? && if q.deletedAt.Some? then HasNo(vault.items, q.id.itemId) else exists it :: it in vault.items && ItemHolds(it, q)
    case SettingsBody(_) => q.deletedAt.None? ==> forall k :: k in q.body.settings ==> FieldOf(vault.settings, k) == Some(q.body.settings[k])
    case PasskeyBody(_, _, _, _, _, _) =>
      q.id.SitePasskeyRecord?
      && if q.deletedAt.Some? then NoCredential(vault.sitePasskeys, q.id.credentialId)
         else exists p :: p in vault.sitePasskeys && PasskeyShows(p, q.id.credentialId, q)
  }

  ghost predicate ItemHolds(it: Item, q: Plain)
    requires q.body.ItemBody?
  {
    && ItemRecord(it.itemId) == q.id && it.itemType == q.body.itemType && it.itemName == Trim(q.body.itemName)
    && forall k :: k in q.body.fields ==> FieldOf(it.fields, k) == if k == "password" && q.body.fields[k] == "" then None else Some(q.body.fields[k])
  }

  lemma FieldsHold(after: map<string, string>, row: map<string, string>, was: map<string, string>, k: string)
    requires FieldsShow(after, row, was) && k in row
    ensures FieldOf(after, k) == if k == "password" && row[k] == "" then None else Some(row[k])
  {
    assert FieldShows(after, row, was, k);
  }

  lemma ShownIsHeld(it: Item, q: Plain, was: Option<Item>)
    requires q.body.ItemBody? && q.id.ItemRecord? && ShowsRow(it, q.id.itemId, q, was)
    ensures ItemHolds(it, q)
  {
    forall k | k in q.body.fields
      ensures FieldOf(it.fields, k) == if k == "password" && q.body.fields[k] == "" then None else Some(q.body.fields[k])
    {
      FieldsHold(it.fields, q.body.fields, if was.Some? then was.value.fields else map[], k);
    }
  }

  lemma TakenIsHeld(before: Vault, after: Vault, q: Plain)
    requires Taken(before, after, q)
    ensures Holds(after, q)
  {
    if q.body.ItemBody? && q.deletedAt.None? {
      if HasNo(before.items, q.id.itemId) {
        var it :| ShowsRow(it, q.id.itemId, q, None) && after.items == before.items + [it];
        ShownIsHeld(it, q, None);
        assert after.items[|before.items|] == it;
      } else {
        var i: nat, it :| FirstAt(before.items, q.id.itemId, i) && ShowsRow(it, q.id.itemId, q, Some(before.items[i])) && after.items == before.items[i := it];
        ShownIsHeld(it, q, Some(before.items[i]));
        assert after.items[i] == it;
      }
    } else if q.body.PasskeyBody? && q.deletedAt.None? {
      assert after.sitePasskeys[|after.sitePasskeys| - 1] in after.sitePasskeys;
    } else if q.body.SettingsBody? && q.deletedAt.None? {
      forall k | k in q.body.settings ensures FieldOf(after.settings, k) == Some(q.body.settings[k]) { }
    }
  }

  lemma SamePayloadHolds(a: Item, b: Item, q: Plain)
    requires q.body.ItemBody? && SamePayload(b, a) && ItemHolds(a, q)
    ensures ItemHolds(b, q)
  {
  }

  /** A row of another record leaves what the vault holds. */
  lemma ApplyKeepsItem(vault: Vault, other: Plain, q: Plain)
    requires q.body.ItemBody? && other.id != q.id && Holds(vault, q)
    ensures Holds(Apply(vault, other), q)
  {
    var after := Apply(vault, other);
    if q.deletedAt.None? {
      var it :| it in vault.items && ItemHolds(it, q);
      var kept := ApplyLeaves(vault, other, it);
      SamePayloadHolds(it, kept, q);
    } else {
      forall i | 0 <= i < |after.items| ensures after.items[i].itemId != q.id.itemId {
        if ItemRecord(after.items[i].itemId) != other.id {
          var was := ApplyOrigin(vault, other, after.items[i]);
        }
      }
    }
  }

  lemma {:induction false} WithoutPasskeyLeaves(passkeys: seq<Passkey>, credentialId: string, p: Passkey)
    ensures p in WithoutPasskey(passkeys, credentialId) <==> p in passkeys && p.credentialId != Some(credentialId)
  {
    if passkeys != [] {
      WithoutPasskeyLeaves(passkeys[1..], credentialId, p);
      assert passkeys == [passkeys[0]] + passkeys[1..];
    }
  }

  lemma ApplyKeepsPasskey(vault: Vault, other: Plain, q: Plain)
    requires q.body.PasskeyBody? && other.id != q.id && Holds(vault, q)
    ensures Holds(Apply(vault, other), q)
  {
    if other.id.SitePasskeyRecord? && other.body.PasskeyBody? {
      var after := Apply(vault, other);
      if q.deletedAt.None? {
        var p :| p in vault.sitePasskeys && PasskeyShows(p, q.id.credentialId, q);
        WithoutPasskeyLeaves(vault.sitePasskeys, other.id.credentialId, p);
        assert p in after.sitePasskeys;
      } else {
        forall i | 0 <= i < |after.sitePasskeys| ensures after.sitePasskeys[i].credentialId != Some(q.id.credentialId) {
          WithoutPasskeyLeaves(vault.sitePasskeys, other.id.credentialId, after.sitePasskeys[i]);
          assert after.sitePasskeys[i].credentialId != Some(other.id.credentialId) ==> after.sitePasskeys[i] in vault.sitePasskeys;
        }
      }
    }
  }

  lemma ApplyKeeps(vault: Vault, other: Plain, q: Plain)
    requires other.id != q.id && Holds(vault, q) && (q.body.SettingsBody? ==> q.id.SettingsRecord?)
    ensures Holds(Apply(vault, other), q)
  {
    match q.body
    case ItemBody(_, _, _) => ApplyKeepsItem(vault, other, q);
    case PasskeyBody(_, _, _, _, _, _) => ApplyKeepsPasskey(vault, other, q);
    case SettingsBody(_) =>
  }

  lemma PreserveKeeps(vault: Vault, p: Plain, newId: string, now: pos, q: Plain)
    requires Holds(vault, q) && q.id != ItemRecord(newId)
    ensures Holds(Preserve(vault, p, newId, now), q)
  {
    if q.body.ItemBody? && q.deletedAt.None? {
      var it :| it in vault.items && ItemHolds(it, q);
      assert it in Preserve(vault, p, newId, now).items;
    }
  }

  lemma PullRowHolds(w: Work, key: VaultKey, account: string, dirty: map<RecordId, Plain>, row: Row, newId: string, now: pos, q: Plain)
    requires ValidPlain(q) && Holds(w.client.vault, q) && row.id != q.id && q.id != ItemRecord(newId)
    ensures Holds(PullRow(w, key, account, dirty, row, newId, now).client.vault, q)
  {
    var p := Decrypt(key, account, row);
    if IsNews(w, key, account, row) {
      var c := CopyFirst(w, dirty, row, newId, now);
      if NeedsCopy(w.client.sync, dirty, row) { PreserveKeeps(w.client.vault, dirty[row.id], newId, now, q); }
      ApplyKeeps(c.client.vault, p.value, q);
      assert PullRow(w, key, account, dirty, row, newId, now).client.vault == Apply(c.client.vault, p.value);
    } else {
      PullTakesExactlyNews(w, key, account, dirty, row, newId, now);
    }
  }

  lemma PullRowLeavesOthers(w: Work, key: VaultKey, account: string, dirty: map<RecordId, Plain>, row: Row, newId: string, now: pos, other: Row)
    requires row.id != other.id
    ensures IsNews(PullRow(w, key, account, dirty, row, newId, now), key, account, other) <==> IsNews(w, key, account, other)
  {
    PullTakesExactlyNews(w, key, account, dirty, row, newId, now);
    var after := PullRow(w, key, account, dirty, row, newId, now).client.sync;
    assert BaseOf(after.records, other.id) == BaseOf(w.client.sync.records, other.id);
    assert other.id in after.pendingDeletes <==> other.id in w.client.sync.pendingDeletes;
  }

  lemma {:induction false} PullRowsLeaveOthers(w: Work, key: VaultKey, account: string, dirty: map<RecordId, Plain>, rows: seq<Row>, newIds: seq<string>, now: pos, other: Row)
    requires |rows| <= |newIds| && forall k :: 0 <= k < |rows| ==> rows[k].id != other.id
    ensures IsNews(PullRows(w, key, account, dirty, rows, newIds, now), key, account, other) <==> IsNews(w, key, account, other)
  {
    if rows != [] {
      var n := |rows| - 1;
      PullRowsLeaveOthers(w, key, account, dirty, rows[..n], newIds, now, other);
      PullRowLeavesOthers(PullRows(w, key, account, dirty, rows[..n], newIds, now), key, account, dirty, rows[n], newIds[n], now, other);
    }
  }

  lemma NewsIsHeld(w: Work, key: VaultKey, account: string, dirty: map<RecordId, Plain>, row: Row, newId: string, now: pos)
    requires IsNews(w, key, account, row)
    ensures Holds(PullRow(w, key, account, dirty, row, newId, now).client.vault, Decrypt(key, account, row).value)
  {
    PullTakesExactlyNews(w, key, account, dirty, row, newId, now);
    var q := Decrypt(key, account, row).value;
    var after := PullRow(w, key, account, dirty, row, newId, now).client.vault;
    var mid: Vault :| Taken(mid, after, q);
    TakenIsHeld(mid, after, q);
  }

  /** All the news of a page is in the vault once the page is worked through. */
  lemma {:induction false} PageIsHeld(w: Work, key: VaultKey, account: string, dirty: map<RecordId, Plain>, rows: seq<Row>, newIds: seq<string>, now: pos, k: nat)
    requires k < |rows| <= |newIds| && DistinctRows(rows) && IsNews(w, key, account, rows[k])
    requires forall j :: 0 <= j < |rows| ==> rows[k].id != ItemRecord(newIds[j])
    ensures Holds(PullRows(w, key, account, dirty, rows, newIds, now).client.vault, Decrypt(key, account, rows[k]).value)
  {
    var n := |rows| - 1;
    var mid := PullRows(w, key, account, dirty, rows[..n], newIds, now);
    if k < n {
      PageIsHeld(w, key, account, dirty, rows[..n], newIds, now, k);
      PullRowHolds(mid, key, account, dirty, rows[n], newIds[n], now, Decrypt(key, account, rows[k]).value);
    } else {
      PullRowsLeaveOthers(w, key, account, dirty, rows[..n], newIds, now, rows[n]);
      NewsIsHeld(mid, key, account, dirty, rows[n], newIds[n], now);
    }
  }

  lemma PageIsDistinct(s: Store, n: nat)
    requires Ledger(s)
    ensures var rows := Scan(s, n, PULL_BATCH_LIMIT); DistinctRows(rows) && AllCurrent(s, rows)
  {
    var rows := Scan(s, n, PULL_BATCH_LIMIT);
    ScanIsPage(s, n, PULL_BATCH_LIMIT);
    forall i | 0 <= i < |rows| ensures Current(s, rows[i]) { assert Listed(s, n, rows[i]); }
    forall i, j | 0 <= i < j < |rows| ensures rows[i].id != rows[j].id { assert Current(s, rows[i]) && Current(s, rows[j]); }
  }

  /** In every run, after a page query under a known key the vault holds every row of the page that is
      news to the device. */
  lemma PulledRowsAreInTheVault(events: seq<Event>, d: string, newIds: seq<string>, now: pos, key: VaultKey, k: nat)
    requires var p := PairOf(Run(events), d);
      p.dev.phase.Pulling? && p.store.wrapped == Some(Wrapped(Account(p.dev), key)) && Unused(newIds, p)
    requires var p := PairOf(Run(events), d); var rows := PullSince(p.store, p.dev.phase.next, PULL_BATCH_LIMIT).rows;
      k < |rows| <= |newIds| && IsNews(WorkOn(p.dev.client, p.dev.phase.pull), key, Account(p.dev), rows[k])
    ensures var p := PairOf(Run(events), d); var row := PullSince(p.store, p.dev.phase.next, PULL_BATCH_LIMIT).rows[k];
      Holds(QueryPage(p, newIds, now).dev.client.vault, Decrypt(key, Account(p.dev), row).value)
  {
    RunInv(events);
    var p := PairOf(Run(events), d);
    assert DeviceInv(Run(events), d) && StoreInv(Account(p.dev), p.store);
    QueryHolds(Account(p.dev), p, newIds, now, key, k);
  }

  lemma QueryHolds(account: string, p: Pair, newIds: seq<string>, now: pos, key: VaultKey, k: nat)
    requires StoreInv(account, p.store) && DevInv(account, p.dev, p.store) && Account(p.dev) == account
    requires p.dev.phase.Pulling? && p.store.wrapped == Some(Wrapped(account, key)) && Unused(newIds, p)
    requires var rows := PullSince(p.store, p.dev.phase.next, PULL_BATCH_LIMIT).rows;
      k < |rows| <= |newIds| && IsNews(WorkOn(p.dev.client, p.dev.phase.pull), key, account, rows[k])
    ensures Holds(QueryPage(p, newIds, now).dev.client.vault, Decrypt(key, account, PullSince(p.store, p.dev.phase.next, PULL_BATCH_LIMIT).rows[k]).value)
  {
    var ph := p.dev.phase;
    var page := PullSince(p.store, ph.next, PULL_BATCH_LIMIT);
    var pull := ph.pull.(sequence := Max(ph.pull.sequence, page.sequence));
    PageIsDistinct(p.store, ph.next + 1);
    assert Current(p.store, page.rows[k]);
    PageIsHeld(WorkOn(p.dev.client, pull), key, account, pull.dirty, page.rows, newIds, now, k);
    assert QueryPage(p, newIds, now) == Absorb(p, pull, key, page, ph.next, ph.pages, newIds, now);
  }
}
