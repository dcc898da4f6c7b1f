/** One device: the local vault, what it remembers of the server, and the pure steps of a sync.
    Clock readings and random identifiers are parameters. */
module SyncClient {
  import opened Common
  import opened SyncTypes
  import opened SyncServer

  datatype Sync = Sync(accountId: Option<string>, conflictCount: nat, serverSequence: nat,
                       records: map<RecordId, Meta>, pendingDeletes: map<RecordId, Plain>)

  datatype Client = Client(deviceId: string, vault: Vault, sync: Sync)

  const DEFAULT_SETTINGS: map<string, string> :=
    map["hotkey" := "Alt+S", "clearClipboardSeconds" := "45", "launchOnStartup" := "false",
        "browserAutoOpenMenu" := "true", "browserAutoSubmitLogin" := "false", "browserSavePrompts" := "true",
        "passcodeEnabled" := "true", "autoLockMinutes" := "15", "systemUnlockPolicy" := "timed",
        "sshAgentEnabled" := "false"]

  // ---- src/desktop/sync-records.ts

  function RecordOfItem(item: Item, now: pos): Plain {
    Plain(ItemRecord(item.itemId), ItemBody(item.itemType, item.itemName, item.fields), Some(item.updatedAt.GetOr(At(now))), None)
  }

  function ItemRecords(items: seq<Item>, now: pos): seq<Plain> {
    seq(|items|, i requires 0 <= i < |items| => RecordOfItem(items[i], now))
  }

  predicate HasRecord(p: Passkey) {
    p.credentialId.Some? && p.credentialId.value != "" && p.itemId.Some? && p.itemId.value != ""
  }

  function RecordOfPasskey(p: Passkey, now: pos): Plain
    requires HasRecord(p)
  {
    Plain(SitePasskeyRecord(p.credentialId.value),
          PasskeyBody(p.id.GetOr(p.credentialId.value), p.itemId.value, p.title.GetOr("Saved passkey"),
                      p.signCount.GetOr(0), p.createdAt.GetOr(At(now)), p.rest),
          None, None)
  }

  function PasskeyRecords(passkeys: seq<Passkey>, now: pos): seq<Plain> {
    if passkeys == [] then []
    else if HasRecord(passkeys[0]) then [RecordOfPasskey(passkeys[0], now)] + PasskeyRecords(passkeys[1..], now)
    else PasskeyRecords(passkeys[1..], now)
  }

  function SettingsRecordOf(vault: Vault, now: pos): Plain {
    Plain(SettingsRecord, SettingsBody(vault.settings), Some(At(now)), None)
  }

  function Active(vault: Vault, now: pos): seq<Plain> {
    ItemRecords(vault.items, now) + PasskeyRecords(vault.sitePasskeys, now) + [SettingsRecordOf(vault, now)]
  }

  /** The tombstone for a record that the device once knew and no longer holds. */
  function Missing(id: RecordId, m: Meta, now: pos): seq<Plain> {
    if m.deletedAt.Some? then []
    else
      match id
      case ItemRecord(_) =>
        [Plain(id, ItemBody("login", "Deleted item", map["password" := "", "preserveEmptyPassword" := "true"]), Some(At(now)), Some(now))]
      case SitePasskeyRecord(credentialId) =>
        [Plain(id, PasskeyBody(credentialId, m.itemId.GetOr("deleted"), "Deleted passkey", 0, At(now), map[]), None, Some(now))]
      case SettingsRecord => []
  }

  function MissingRecords(known: set<RecordId>, order: seq<RecordId>, records: map<RecordId, Meta>, now: pos): seq<Plain> {
    if order == [] then []
    else if order[0] in known || order[0] !in records then MissingRecords(known, order[1..], records, now)
    else Missing(order[0], records[order[0]], now) + MissingRecords(known, order[1..], records, now)
  }

  function Ids(list: seq<Plain>): set<RecordId> {
    set p | p in list :: p.id
  }

  function Pending(order: seq<RecordId>, pending: map<RecordId, Plain>): seq<Plain>
    requires forall id :: id in order ==> id in pending
  {
    seq(|order|, i requires 0 <= i < |order| => pending[order[i]])
  }

  // ---- src/desktop/sync-state.ts

  /** The fields that every normalized item has. */
  const FIELD_DEFAULTS: map<string, string> :=
    map["username" := "", "websites" := "[]", "customFields" := "[]", "recoveryCodes" := "[]"]

  predicate ClearsPassword(input: map<string, string>) {
    "password" in input && input["password"] == ""
  }

  /** `input.x ?? current.x` for every synced field. An empty password in the input clears it. */
  function Overlay(input: map<string, string>, current: map<string, string>): map<string, string> {
    var all := FIELD_DEFAULTS + current + input;
    if ClearsPassword(input) then all - {"password"} else all
  }

  function NameOf(input: string, current: string): string {
    if Trim(input) != "" then Trim(input) else if current != "" then current else "Untitled"
  }

  function NewItem(id: string, body: Body, updatedAt: Option<Stamp>): Item
    requires body.ItemBody?
  {
    Item(id, body.itemType, NameOf(body.itemName, ""), Overlay(body.fields, map[]), map[], [], updatedAt)
  }

  function Updated(current: Item, body: Body, updatedAt: Option<Stamp>): Item
    requires body.ItemBody?
  {
    Item(current.itemId, body.itemType, NameOf(body.itemName, current.itemName), Overlay(body.fields, current.fields),
         current.local, current.passkeys, updatedAt)
  }

  function Upsert(items: seq<Item>, id: string, body: Body, updatedAt: Option<Stamp>): seq<Item>
    requires body.ItemBody?
  {
    if items == [] then [NewItem(id, body, updatedAt)]
    else if items[0].itemId == id then [Updated(items[0], body, updatedAt)] + items[1..]
    else [items[0]] + Upsert(items[1..], id, body, updatedAt)
  }

  function WithoutItem(items: seq<Item>, id: string): seq<Item> {
    if items == [] then []
    else if items[0].itemId == id then WithoutItem(items[1..], id)
    else [items[0]] + WithoutItem(items[1..], id)
  }

  function WithoutPasskey(passkeys: seq<Passkey>, credentialId: string): seq<Passkey> {
    if passkeys == [] then []
    else if passkeys[0].credentialId == Some(credentialId) then WithoutPasskey(passkeys[1..], credentialId)
    else [passkeys[0]] + WithoutPasskey(passkeys[1..], credentialId)
  }

  function WithoutRef(refs: seq<PasskeyRef>, credentialId: string): seq<PasskeyRef> {
    if refs == [] then []
    else if refs[0].credentialId == credentialId then WithoutRef(refs[1..], credentialId)
    else [refs[0]] + WithoutRef(refs[1..], credentialId)
  }

  /** A passkey record rewrites the passkey list of the items, and nothing else of them. */
  function Relink(item: Item, credentialId: string, body: Body, deleted: bool): Item
    requires body.PasskeyBody?
  {
    var refs := WithoutRef(item.passkeys, credentialId);
    item.(passkeys := if !deleted && item.itemId == body.itemId
                      then refs + [PasskeyRef(credentialId, body.passkeyId, body.title, body.createdAt)] else refs)
  }

  function ApplyPasskey(vault: Vault, credentialId: string, body: Body, deleted: bool): Vault
    requires body.PasskeyBody?
  {
    var others := WithoutPasskey(vault.sitePasskeys, credentialId);
    vault.(
      sitePasskeys := if deleted then others
                      else others + [Passkey(Some(credentialId), Some(body.itemId), Some(body.passkeyId), Some(body.title),
                                             Some(body.signCount), Some(body.createdAt), body.rest)],
      items := seq(|vault.items|, i requires 0 <= i < |vault.items| => Relink(vault.items[i], credentialId, body, deleted)))
  }

  function Apply(vault: Vault, p: Plain): Vault {
    match p.id
    case ItemRecord(itemId) =>
      if !p.body.ItemBody? then vault
      else if p.deletedAt.Some? then vault.(items := WithoutItem(vault.items, itemId))
      else vault.(items := Upsert(vault.items, itemId, p.body, p.updatedAt))
    case SettingsRecord =>
      if p.body.SettingsBody? && p.deletedAt.None? then vault.(settings := DEFAULT_SETTINGS + p.body.settings) else vault
    case SitePasskeyRecord(credentialId) =>
      if p.body.PasskeyBody? then ApplyPasskey(vault, credentialId, p.body, p.deletedAt.Some?) else vault
  }

  predicate Copyable(p: Plain) {
    p.id.ItemRecord? && p.body.ItemBody? && p.deletedAt.None?
  }

  const COPY_SUFFIX := " conflict copy"

  function ConflictCopy(p: Plain, id: string, now: pos): Item
    requires Copyable(p)
  {
    NewItem(id, p.body.(itemName := p.body.itemName + COPY_SUFFIX), Some(At(now)))
  }

  function Preserve(vault: Vault, p: Plain, id: string, now: pos): Vault {
    if Copyable(p) then vault.(items := vault.items + [ConflictCopy(p, id, now)]) else vault
  }

  function MetaItemId(p: Plain): Option<string> {
    match p.body
    case ItemBody(_, _, _) => if p.id.ItemRecord? then Some(p.id.itemId) else None
    case PasskeyBody(_, itemId, _, _, _, _) => Some(itemId)
    case SettingsBody(_) => None
  }

  function EnsureAccount(sync: Sync, account: string): Sync {
    if sync.accountId == Some(account) then sync else Sync(Some(account), 0, 0, map[], map[])
  }

  // ---- src/desktop/sync.ts: dirtyLocalRecords

  function KnownHash(records: map<RecordId, Meta>, id: RecordId): ContentHash {
    if id in records then records[id].hash else NoHash
  }

  function Dirty(list: seq<Plain>, records: map<RecordId, Meta>): map<RecordId, Plain> {
    if list == [] then map[]
    else
      var p := list[|list| - 1];
      var m := Dirty(list[..|list| - 1], records);
      if KnownHash(records, p.id) == Hash(p) then m else m[p.id := p]
  }

  // ---- src/desktop/sync.ts: pullRemote, one record

  /** The device while it works through pulled or refused rows. The last two are history variables:
      the conflict copies made so far, by their new identifier, and the records whose pulled rows
      could not be opened. */
  datatype Work = Work(client: Client, failures: nat, copies: map<string, Plain>, unread: set<RecordId>)

  function MetaOfRow(row: Row, itemId: Option<string>): Meta {
    Meta(row.revision, row.hash, row.serverSequence, row.deletedAt, itemId)
  }

  function WithMeta(sync: Sync, id: RecordId, m: Meta): Sync {
    sync.(records := sync.records[id := m])
  }

  function DropPending(sync: Sync, id: RecordId, gone: bool): Sync {
    if gone then sync.(pendingDeletes := sync.pendingDeletes - {id}) else sync
  }

  predicate Stale(sync: Sync, row: Row) {
    row.id in sync.records && sync.records[row.id].hash.Sha256? && sync.records[row.id].hash != row.hash
    && row.revision <= sync.records[row.id].revision
  }

  predicate NeedsCopy(sync: Sync, dirty: map<RecordId, Plain>, row: Row) {
    KnownHash(sync.records, row.id).Sha256? && row.id in dirty && Hash(dirty[row.id]) != row.hash
  }

  function PullKnown(w: Work, row: Row): Work
    requires row.id in w.client.sync.records
  {
    var local := w.client.sync.records[row.id];
    var m := local.(revision := Max(local.revision, row.revision), serverSequence := row.serverSequence, deletedAt := row.deletedAt);
    w.(client := w.client.(sync := DropPending(WithMeta(w.client.sync, row.id, m), row.id, row.deletedAt.Some?)))
  }

  /** What is remembered of a row that could not be opened. */
  function MetaOfUnread(row: Row, itemId: Option<string>): Meta {
    Meta(row.revision, NoHash, row.serverSequence, row.deletedAt, itemId)
  }

  function PullUnreadable(w: Work, row: Row): Work {
    var itemId := if row.id in w.client.sync.records then w.client.sync.records[row.id].itemId else None;
    var m := MetaOfUnread(row, itemId);
    w.(client := w.client.(sync := WithMeta(w.client.sync, row.id, m)), failures := w.failures + 1, unread := w.unread + {row.id})
  }

  function PullOverPending(w: Work, row: Row, p: Plain): Work {
    w.(client := w.client.(sync := WithMeta(DropPending(w.client.sync, row.id, p.deletedAt.Some?), row.id, MetaOfRow(row, MetaItemId(p)))))
  }

  function CountConflict(sync: Sync): Sync {
    sync.(conflictCount := sync.conflictCount + 1)
  }

  function CopyFirst(w: Work, dirty: map<RecordId, Plain>, row: Row, newId: string, now: pos): Work {
    if NeedsCopy(w.client.sync, dirty, row) then
      var p := dirty[row.id];
      w.(client := w.client.(vault := Preserve(w.client.vault, p, newId, now), sync := CountConflict(w.client.sync)),
         copies := if Copyable(p) then w.copies[newId := p] else w.copies)
    else w
  }

  function PullFresh(w: Work, dirty: map<RecordId, Plain>, row: Row, p: Plain, newId: string, now: pos): Work {
    var c := CopyFirst(w, dirty, row, newId, now);
    c.(client := c.client.(vault := Apply(c.client.vault, p), sync := WithMeta(c.client.sync, row.id, MetaOfRow(row, MetaItemId(p)))))
  }

  function PullRow(w: Work, key: VaultKey, account: string, dirty: map<RecordId, Plain>, row: Row, newId: string, now: pos): Work {
    var sync := w.client.sync;
    if row.id in sync.records && sync.records[row.id].hash == row.hash then PullKnown(w, row)
    else
      match Decrypt(key, account, row)
      case None => PullUnreadable(w, row)
      case Some(p) =>
        if row.id in sync.pendingDeletes then PullOverPending(w, row, p)
        else if Stale(sync, row) then w.(client := w.client.(sync := CountConflict(sync)))
        else PullFresh(w, dirty, row, p, newId, now)
  }

  function PullRows(w: Work, key: VaultKey, account: string, dirty: map<RecordId, Plain>, rows: seq<Row>, newIds: seq<string>, now: pos): Work
    requires |rows| <= |newIds|
  {
    if rows == [] then w
    else
      var n := |rows| - 1;
      PullRow(PullRows(w, key, account, dirty, rows[..n], newIds, now), key, account, dirty, rows[n], newIds[n], now)
  }

  // ---- src/desktop/sync.ts: pushLocal

  /** A sealed record waiting to be pushed, with the payload it seals. `base` is a history
      variable: the acknowledged version it was built on. */
  datatype Queued = Queued(record: Encrypted, plain: Plain, base: Option<Meta>)

  function PushList(vault: Vault, sync: Sync, pendingOrder: seq<RecordId>, recordOrder: seq<RecordId>, now: pos): seq<Plain>
    requires forall id :: id in pendingOrder ==> id in sync.pendingDeletes
  {
    var known := Active(vault, now) + Pending(pendingOrder, sync.pendingDeletes);
    known + MissingRecords(Ids(known), recordOrder, sync.records, now)
  }

  function BaseOf(records: map<RecordId, Meta>, id: RecordId): Option<Meta> {
    if id in records then Some(records[id]) else None
  }

  function RevisionOn(base: Option<Meta>): nat {
    if base.Some? then base.value.revision + 1 else 1
  }

  function Enqueue(key: VaultKey, account: string, deviceId: string, records: map<RecordId, Meta>, p: Plain): Queued {
    var base := BaseOf(records, p.id);
    Queued(Encrypt(key, account, deviceId, RevisionOn(base), p), p, base)
  }

  /** The records to push, in order, and the refreshed metadata of those already on the server. */
  datatype Built = Built(records: map<RecordId, Meta>, queue: seq<Queued>, plainById: map<RecordId, Plain>)

  function BuildOne(key: VaultKey, account: string, deviceId: string, b: Built, p: Plain): Built {
    if p.id in b.records && b.records[p.id].hash == Hash(p) then
      b.(records := b.records[p.id := b.records[p.id].(itemId := MetaItemId(p))])
    else
      b.(queue := b.queue + [Enqueue(key, account, deviceId, b.records, p)], plainById := b.plainById[p.id := p])
  }

  function Build(key: VaultKey, account: string, deviceId: string, records: map<RecordId, Meta>, list: seq<Plain>): Built {
    if list == [] then Built(records, [], map[])
    else BuildOne(key, account, deviceId, Build(key, account, deviceId, records, list[..|list| - 1]), list[|list| - 1])
  }

  function TakeAccepted(sync: Sync, plainById: map<RecordId, Plain>, a: Accepted): Sync {
    var p := if a.id in plainById then Some(plainById[a.id]) else None;
    var deletedAt := if p.Some? then p.value.deletedAt else None;
    var m := Meta(a.revision, a.hash, a.serverSequence, deletedAt, if p.Some? then MetaItemId(p.value) else None);
    DropPending(WithMeta(sync, a.id, m), a.id, deletedAt.Some?)
  }

  function TakeAllAccepted(sync: Sync, plainById: map<RecordId, Plain>, accepted: seq<Accepted>): Sync {
    if accepted == [] then sync
    else TakeAccepted(TakeAllAccepted(sync, plainById, accepted[..|accepted| - 1]), plainById, accepted[|accepted| - 1])
  }

  function RefusedDelete(w: Work, key: VaultKey, account: string, row: Row): Work {
    var sync := CountConflict(w.client.sync);
    match Decrypt(key, account, row)
    case None => w.(client := w.client.(sync := sync), failures := w.failures + 1)
    case Some(p) =>
      w.(client := w.client.(sync := WithMeta(DropPending(sync, row.id, p.deletedAt.Some?), row.id, MetaOfRow(row, MetaItemId(p)))))
  }

  function RefusedEdit(w: Work, key: VaultKey, account: string, local: Option<Plain>, row: Row, newId: string, now: pos): Work {
    var c := if local.Some?
             then w.(client := w.client.(vault := Preserve(w.client.vault, local.value, newId, now), sync := CountConflict(w.client.sync)),
                     copies := if Copyable(local.value) then w.copies[newId := local.value] else w.copies)
             else w;
    match Decrypt(key, account, row)
    case None => c.(failures := c.failures + 1)
    case Some(p) =>
      c.(client := c.client.(vault := Apply(c.client.vault, p), sync := WithMeta(c.client.sync, row.id, MetaOfRow(row, MetaItemId(p)))))
  }

  function TakeConflict(w: Work, key: VaultKey, account: string, plainById: map<RecordId, Plain>, row: Row, newId: string, now: pos): Work {
    var local := if row.id in plainById then Some(plainById[row.id]) else None;
    if local.Some? && local.value.deletedAt.Some? then RefusedDelete(w, key, account, row)
    else RefusedEdit(w, key, account, local, row, newId, now)
  }

  function TakeConflicts(w: Work, key: VaultKey, account: string, plainById: map<RecordId, Plain>, rows: seq<Row>, newIds: seq<string>, now: pos): Work
    requires |rows| <= |newIds|
  {
    if rows == [] then w
    else
      var n := |rows| - 1;
      TakeConflict(TakeConflicts(w, key, account, plainById, rows[..n], newIds, now), key, account, plainById, rows[n], newIds[n], now)
  }

  function TakeOutcome(w: Work, key: VaultKey, account: string, plainById: map<RecordId, Plain>, o: PushOutcome, newIds: seq<string>, now: pos): Work
    requires |o.conflicts| <= |newIds|
  {
    var sync := TakeAllAccepted(w.client.sync, plainById, o.accepted);
    TakeConflicts(w.(client := w.client.(sync := sync)), key, account, plainById, o.conflicts, newIds, now)
  }

  // ---- src/desktop/delete-tombstones.ts

  function DeletedItemRecord(item: Option<Item>, itemId: string, now: pos): Plain {
    var itemType := if item.Some? then item.value.itemType else "login";
    var name := if item.Some? && item.value.itemName != "" then item.value.itemName else "Deleted item";
    Plain(ItemRecord(itemId), ItemBody(itemType, name, map["password" := "", "preserveEmptyPassword" := "true"]), Some(At(now)), Some(now))
  }

  function FirstItem(items: seq<Item>, itemId: string): Option<Item> {
    if items == [] then None else if items[0].itemId == itemId then Some(items[0]) else FirstItem(items[1..], itemId)
  }

  function PasskeysOf(passkeys: seq<Passkey>, itemId: string): seq<Passkey> {
    if passkeys == [] then []
    else if passkeys[0].itemId == Some(itemId) then [passkeys[0]] + PasskeysOf(passkeys[1..], itemId)
    else PasskeysOf(passkeys[1..], itemId)
  }

  function PasskeysOfOthers(passkeys: seq<Passkey>, itemId: string): seq<Passkey> {
    if passkeys == [] then []
    else if passkeys[0].itemId == Some(itemId) then PasskeysOfOthers(passkeys[1..], itemId)
    else [passkeys[0]] + PasskeysOfOthers(passkeys[1..], itemId)
  }

  function DeletedPasskeyRecord(q: Passkey, credentialId: string, now: pos): Plain {
    Plain(SitePasskeyRecord(credentialId),
          PasskeyBody(q.id.GetOr(credentialId), q.itemId.GetOr("deleted"), q.title.GetOr("Deleted passkey"), 0, At(now),
                      if "transports" in q.rest then map["transports" := q.rest["transports"]] else map[]),
          None, Some(now))
  }

  /** A deletion waits for the next push if the device is signed in or has met the record in a sync. */
  predicate MustTell(records: map<RecordId, Meta>, signedIn: bool, id: RecordId) {
    signedIn || id in records
  }

  predicate Tells(records: map<RecordId, Meta>, signedIn: bool, q: Passkey) {
    q.credentialId.Some? && q.credentialId.value != "" && MustTell(records, signedIn, SitePasskeyRecord(q.credentialId.value))
  }

  function MarkPasskeys(pending: map<RecordId, Plain>, records: map<RecordId, Meta>, signedIn: bool, deleted: seq<Passkey>, now: pos): map<RecordId, Plain> {
    if deleted == [] then pending
    else
      var q := deleted[|deleted| - 1];
      var m := MarkPasskeys(pending, records, signedIn, deleted[..|deleted| - 1], now);
      if Tells(records, signedIn, q) then m[SitePasskeyRecord(q.credentialId.value) := DeletedPasskeyRecord(q, q.credentialId.value, now)] else m
  }

  function MarkItem(c: Client, itemId: string, signedIn: bool, now: pos): map<RecordId, Plain> {
    if MustTell(c.sync.records, signedIn, ItemRecord(itemId))
    then c.sync.pendingDeletes[ItemRecord(itemId) := DeletedItemRecord(FirstItem(c.vault.items, itemId), itemId, now)]
    else c.sync.pendingDeletes
  }

  /** Deleting an item takes its passkeys along. */
  function DeleteItem(c: Client, itemId: string, signedIn: bool, now: pos): Client {
    c.(vault := c.vault.(items := WithoutItem(c.vault.items, itemId), sitePasskeys := PasskeysOfOthers(c.vault.sitePasskeys, itemId)),
       sync := c.sync.(pendingDeletes := MarkPasskeys(MarkItem(c, itemId, signedIn, now), c.sync.records, signedIn,
                                                      PasskeysOf(c.vault.sitePasskeys, itemId), now)))
  }
}
