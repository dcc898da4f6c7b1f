/** What applying a record and preserving a conflict do to the items of a vault: identifiers stay
    unique, untouched payloads stay, and a conflict copy carries the payload it was made from. */
module SyncVault {
  import opened Common
  import opened SyncTypes
  import opened SyncClient
  import opened SyncProtocol

  // ---- payloads

  /** The synced fields as `normalizeItem` would store them in a new item. */
  function Normal(fields: map<string, string>): map<string, string> {
    Overlay(fields, map[])
  }

  predicate SameContent(it: Item, p: Plain) {
    Copyable(p) && it.itemType == p.body.itemType && Normal(it.fields) == Normal(p.body.fields)
  }

  /** Two names that `normalizeItem` stores alike. */
  predicate SameName(a: string, b: string) {
    NameOf(a, "") == NameOf(b, "")
  }

  /** The item is the one that record `p` describes and holds its whole payload. */
  predicate InPlace(it: Item, p: Plain) {
    ItemRecord(it.itemId) == p.id && SameContent(it, p) && SameName(it.itemName, p.body.itemName)
  }

  /** The item is a conflict copy of record `p`. */
  predicate CopyOf(it: Item, p: Plain) {
    SameContent(it, p) && it.itemName == NameOf(p.body.itemName + COPY_SUFFIX, "")
  }

  /** What `original` is called after `n` conflict copies, each made of the one before. */
  ghost predicate Renamed(name: string, original: string, n: nat)
    decreases n
  {
    if n == 0 then SameName(name, original)
    else exists m :: Renamed(m, original, n - 1) && name == NameOf(m + COPY_SUFFIX, "")
  }

  /** The name of a copy, or of a copy of a copy, and so on. */
  ghost predicate NamedAfter(name: string, original: string) {
    exists n: pos :: Renamed(name, original, n)
  }

  /** The payload of record `p` is in the item: in place, or in a conflict copy. */
  ghost predicate Carries(it: Item, p: Plain) {
    InPlace(it, p) || (SameContent(it, p) && NamedAfter(it.itemName, p.body.itemName))
  }

  predicate SamePayload(a: Item, b: Item) {
    a.itemId == b.itemId && a.itemType == b.itemType && a.itemName == b.itemName && a.fields == b.fields
  }

  ghost predicate Survives(vault: Vault, p: Plain) {
    exists it :: it in vault.items && Carries(it, p)
  }

  lemma NormalAt(fields: map<string, string>, k: string)
    ensures k in Normal(fields) <==> (k in fields || k in FIELD_DEFAULTS) && !(k == "password" && ClearsPassword(fields))
    ensures k in Normal(fields) ==> Normal(fields)[k] == if k in fields then fields[k] else FIELD_DEFAULTS[k]
  {
  }

  lemma NormalIsStable(fields: map<string, string>)
    ensures Normal(Overlay(fields, map[])) == Normal(fields)
  {
    assert "password" !in FIELD_DEFAULTS;
    var f := Normal(fields);
    assert FIELD_DEFAULTS + map[] + f == f by {
      assert forall k :: k in FIELD_DEFAULTS ==> k in f;
    }
    assert !ClearsPassword(f);
  }

  /** Overlaying a payload on an item that already carries it changes nothing that is synced. */
  lemma OverlayIsIdempotent(input: map<string, string>, current: map<string, string>)
    requires Normal(current) == Normal(input)
    ensures Normal(Overlay(input, current)) == Normal(input)
  {
    assert "password" !in FIELD_DEFAULTS;
    var both := Overlay(input, current);
    forall k
      ensures k in Normal(both) <==> k in Normal(input)
      ensures k in Normal(both) ==> Normal(both)[k] == Normal(input)[k]
    {
      NormalAt(input, k);
      NormalAt(current, k);
      NormalAt(both, k);
    }
  }

  lemma CopyIsNamedAfter(name: string, original: string, n: nat)
    requires Renamed(name, original, n)
    ensures NamedAfter(NameOf(name + COPY_SUFFIX, ""), original)
  {
    assert Renamed(NameOf(name + COPY_SUFFIX, ""), original, n + 1);
  }

  lemma CopyOfCarries(it: Item, p: Plain)
    requires CopyOf(it, p)
    ensures Carries(it, p)
  {
    assert Renamed(p.body.itemName, p.body.itemName, 0);
    CopyIsNamedAfter(p.body.itemName, p.body.itemName, 0);
  }

  /** A conflict copy has the new identifier, its original's type and fields, and its original's name
      with the suffix. */
  lemma CopyCarries(p: Plain, id: string, now: pos)
    requires Copyable(p)
    ensures CopyOf(ConflictCopy(p, id, now), p) && Carries(ConflictCopy(p, id, now), p) && ConflictCopy(p, id, now).itemId == id
  {
    NormalIsStable(p.body.fields);
    CopyOfCarries(ConflictCopy(p, id, now), p);
  }

  /** A copy of an item that carries a payload carries it too. */
  lemma CopyOfCarrier(it: Item, local: Plain, p: Plain, id: string, now: pos)
    requires Carries(it, p) && Copyable(local) && local.body == ItemBody(it.itemType, it.itemName, it.fields)
    ensures Carries(ConflictCopy(local, id, now), p)
  {
    NormalIsStable(it.fields);
    if InPlace(it, p) {
      assert Renamed(it.itemName, p.body.itemName, 0);
      CopyIsNamedAfter(it.itemName, p.body.itemName, 0);
    } else {
      var n: pos :| Renamed(it.itemName, p.body.itemName, n);
      CopyIsNamedAfter(it.itemName, p.body.itemName, n);
    }
  }

  lemma NameIsStable(input: string, current: string)
    requires SameName(current, input)
    ensures SameName(NameOf(input, current), input)
  {
    TrimIsStable(input);
    UntitledIsTrimmed();
  }

  lemma UntitledIsTrimmed()
    ensures Trim("Untitled") == "Untitled"
  {
    var s := "Untitled";
    assert s[0] == 'U' && s[|s| - 1] == 'd';
  }

  // ---- applying a record

  lemma {:induction false} UpsertLeaves(items: seq<Item>, id: string, body: Body, at: Option<Stamp>, it: Item)
    requires body.ItemBody? && it in items && it.itemId != id
    ensures it in Upsert(items, id, body, at)
  {
    if items[0].itemId != id && it != items[0] {
      UpsertLeaves(items[1..], id, body, at, it);
    }
  }

  lemma {:induction false} UpsertUpdates(items: seq<Item>, id: string, body: Body, at: Option<Stamp>, it: Item)
    requires body.ItemBody? && it in items && it.itemId == id
    ensures it in Upsert(items, id, body, at) || Updated(it, body, at) in Upsert(items, id, body, at)
  {
    if items[0].itemId == id {
      if it == items[0] {
        assert Upsert(items, id, body, at)[0] == Updated(it, body, at);
      }
    } else {
      UpsertUpdates(items[1..], id, body, at, it);
    }
  }

  lemma {:induction false} WithoutLeaves(items: seq<Item>, id: string, it: Item)
    requires it in items && it.itemId != id
    ensures it in WithoutItem(items, id)
  {
    if it != items[0] { WithoutLeaves(items[1..], id, it); }
  }

  /** A record leaves the payload of every other item alone. */
  lemma ApplyLeaves(vault: Vault, p: Plain, it: Item) returns (it': Item)
    requires it in vault.items && p.id != ItemRecord(it.itemId)
    ensures it' in Apply(vault, p).items && SamePayload(it', it)
  {
    it' := it;
    match p.id
    case ItemRecord(itemId) =>
      if p.body.ItemBody? {
        if p.deletedAt.Some? { WithoutLeaves(vault.items, itemId, it); } else { UpsertLeaves(vault.items, itemId, p.body, p.updatedAt, it); }
      }
    case SitePasskeyRecord(credentialId) =>
      if p.body.PasskeyBody? {
        var i :| 0 <= i < |vault.items| && vault.items[i] == it;
        it' := Relink(it, credentialId, p.body, p.deletedAt.Some?);
        assert Apply(vault, p).items[i] == it';
      }
    case SettingsRecord =>
  }

  /** Pulling the very payload, name included, that an item already has keeps it. */
  lemma ApplySame(vault: Vault, p: Plain, it: Item) returns (it': Item)
    requires it in vault.items && InPlace(it, p)
    ensures it' in Apply(vault, p).items && InPlace(it', p)
  {
    UpsertUpdates(vault.items, it.itemId, p.body, p.updatedAt, it);
    OverlayIsIdempotent(p.body.fields, it.fields);
    NameIsStable(p.body.itemName, it.itemName);
    it' := if it in Apply(vault, p).items then it else Updated(it, p.body, p.updatedAt);
  }

  lemma {:induction false} UpsertOrigin(items: seq<Item>, id: string, body: Body, at: Option<Stamp>, it: Item)
    requires body.ItemBody? && it in Upsert(items, id, body, at) && it.itemId != id
    ensures it in items
  {
    if items != [] && items[0].itemId != id && it != items[0] {
      UpsertOrigin(items[1..], id, body, at, it);
    }
  }

  lemma {:induction false} WithoutOrigin(items: seq<Item>, id: string, it: Item)
    requires it in WithoutItem(items, id)
    ensures it in items
  {
    if items[0].itemId == id || it != items[0] { WithoutOrigin(items[1..], id, it); }
  }

  /** Every other item of the result was there before, with the same payload. */
  lemma ApplyOrigin(vault: Vault, p: Plain, it: Item) returns (was: Item)
    requires it in Apply(vault, p).items && p.id != ItemRecord(it.itemId)
    ensures was in vault.items && SamePayload(it, was)
  {
    was := it;
    match p.id
    case ItemRecord(itemId) =>
      if p.body.ItemBody? {
        if p.deletedAt.Some? { WithoutOrigin(vault.items, itemId, it); } else { UpsertOrigin(vault.items, itemId, p.body, p.updatedAt, it); }
      }
    case SitePasskeyRecord(credentialId) =>
      if p.body.PasskeyBody? {
        var items := Apply(vault, p).items;
        var i :| 0 <= i < |items| && items[i] == it;
        was := vault.items[i];
      }
    case SettingsRecord =>
  }

  // ---- identifiers

  predicate UniqueItems(items: seq<Item>) {
    forall i, j :: 0 <= i < j < |items| ==> items[i].itemId != items[j].itemId
  }

  lemma {:induction false} WithoutIds(items: seq<Item>, id: string)
    requires UniqueItems(items)
    ensures UniqueItems(WithoutItem(items, id))
    ensures forall it :: it in WithoutItem(items, id) ==> it in items
  {
    if items != [] {
      WithoutIds(items[1..], id);
      var rest := WithoutItem(items[1..], id);
      forall k | 0 <= k < |rest| ensures rest[k].itemId != items[0].itemId {
        assert rest[k] in items[1..];
      }
    }
  }

  lemma {:induction false} WithoutExactly(items: seq<Item>, id: string, x: Item)
    ensures x in WithoutItem(items, id) <==> x in items && x.itemId != id
  {
    if items != [] { WithoutExactly(items[1..], id, x); }
  }

  lemma {:induction false} UpsertIds(items: seq<Item>, id: string, body: Body, at: Option<Stamp>)
    requires UniqueItems(items) && body.ItemBody?
    ensures UniqueItems(Upsert(items, id, body, at))
    ensures forall it :: it in Upsert(items, id, body, at) ==> it.itemId == id || it in items
  {
    if items != [] && items[0].itemId != id {
      UpsertIds(items[1..], id, body, at);
      var rest := Upsert(items[1..], id, body, at);
      forall k | 0 <= k < |rest| ensures rest[k].itemId != items[0].itemId {
        assert rest[k] in rest;
      }
    }
  }

  /** Applying a record keeps identifiers unique and brings in none but its own. */
  lemma ApplyIds(vault: Vault, p: Plain)
    requires UniqueItems(vault.items)
    ensures UniqueItems(Apply(vault, p).items)
    ensures forall it :: it in Apply(vault, p).items ==> p.id == ItemRecord(it.itemId) || it.itemId in ItemIds(vault.items)
  {
    match p.id
    case ItemRecord(itemId) =>
      if p.body.ItemBody? {
        if p.deletedAt.Some? { WithoutIds(vault.items, itemId); } else { UpsertIds(vault.items, itemId, p.body, p.updatedAt); }
      }
    case SitePasskeyRecord(credentialId) =>
      if p.body.PasskeyBody? {
        var items := Apply(vault, p).items;
        forall it | it in items ensures it.itemId in ItemIds(vault.items) {
          var i :| 0 <= i < |items| && items[i] == it;
          assert vault.items[i] in vault.items && vault.items[i].itemId == it.itemId;
        }
      }
    case SettingsRecord =>
  }

  predicate UniquePasskeys(passkeys: seq<Passkey>) {
    forall i, j :: 0 <= i < j < |passkeys| && HasRecord(passkeys[i]) && HasRecord(passkeys[j])
      ==> passkeys[i].credentialId != passkeys[j].credentialId
  }

  lemma {:induction false} WithoutPasskeyIds(passkeys: seq<Passkey>, credentialId: string)
    requires UniquePasskeys(passkeys)
    ensures UniquePasskeys(WithoutPasskey(passkeys, credentialId))
    ensures forall q :: q in WithoutPasskey(passkeys, credentialId) ==> q in passkeys && q.credentialId != Some(credentialId)
  {
    if passkeys != [] {
      WithoutPasskeyIds(passkeys[1..], credentialId);
      var rest := WithoutPasskey(passkeys[1..], credentialId);
      forall k | 0 <= k < |rest| && HasRecord(passkeys[0]) && HasRecord(rest[k]) ensures rest[k].credentialId != passkeys[0].credentialId {
        assert rest[k] in passkeys[1..];
      }
    }
  }

  lemma ApplyPasskeyIds(vault: Vault, p: Plain)
    requires UniquePasskeys(vault.sitePasskeys)
    ensures UniquePasskeys(Apply(vault, p).sitePasskeys)
    ensures forall q :: q in Apply(vault, p).sitePasskeys ==>
      q in vault.sitePasskeys || (q.credentialId.Some? && p.id == SitePasskeyRecord(q.credentialId.value))
  {
    if p.id.SitePasskeyRecord? && p.body.PasskeyBody? {
      WithoutPasskeyIds(vault.sitePasskeys, p.id.credentialId);
      var others := WithoutPasskey(vault.sitePasskeys, p.id.credentialId);
      assert forall k :: 0 <= k < |others| ==> others[k] in others;
    }
  }
}
