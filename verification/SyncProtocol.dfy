/** The whole system: any number of devices and accounts, one store per account. A sync is cut
    into the steps at which it talks to the server; the steps of different devices interleave
    freely. A step that is not enabled leaves the world as it is. */
module SyncProtocol {
  import opened Common
  import opened SyncTypes
  import opened SyncServer
  import opened SyncClient

  const PULL_BATCH_LIMIT := 200
  const MAX_PULL_PAGES := 100

  /** History variables of one sync. When it began: the item edits it set out with, the records
      remembered without a digest, and whether the vault named every record once. Since then: the
      conflict copies made, the records whose pulled row could not be opened, the records of copies
      whose random identifier had turned up on the server when the pull ended, and the numbers of
      the rows that the answers to its pushes named. */
  datatype Past = Past(edits: map<RecordId, Plain>, blank: set<RecordId>, tidy: bool, copies: map<string, Plain>,
                       unread: set<RecordId>, clashed: set<RecordId>, heard: set<nat>)

  /** The local variables of `pullRemote`. */
  datatype Pull = Pull(since: nat, sequence: nat, dirty: map<RecordId, Plain>, failures: nat, past: Past)

  datatype Phase =
    | Idle
    | Pulling(pull: Pull, knownKey: Option<VaultKey>, next: nat, pages: nat)
    | AwaitingKey(pull: Pull, page: Page, candidate: Option<VaultKey>)
    | Pulled(pull: Pull, key: VaultKey)
    | Pushing(pull: Pull, key: VaultKey, queue: seq<Queued>, plainById: map<RecordId, Plain>, sequence: nat)

  datatype Dev = Dev(client: Client, phase: Phase)

  datatype Pair = Pair(dev: Dev, store: Store)

  function Account(dev: Dev): string {
    dev.client.sync.accountId.GetOr("")
  }

  // ---- random identifiers

  function ItemIds(items: seq<Item>): set<string> {
    set i | i in items :: i.itemId
  }

  /** Random identifiers are modelled as unused: not in the vault, not awaiting deletion or a push,
      not on the server. */
  predicate Unused(newIds: seq<string>, p: Pair) {
    && Distinct(newIds)
    && forall i :: 0 <= i < |newIds| ==>
         && newIds[i] !in ItemIds(p.dev.client.vault.items)
         && ItemRecord(newIds[i]) !in p.dev.client.sync.pendingDeletes
         && ItemRecord(newIds[i]) !in p.store.rows
         && (p.dev.phase.Pushing? ==> ItemRecord(newIds[i]) !in p.dev.phase.plainById)
  }

  /** The records with a conflict copy whose identifier has turned up on the server. */
  function Clashed(copies: map<string, Plain>, rows: map<RecordId, Row>): set<RecordId> {
    set id | id in copies && ItemRecord(id) in rows :: copies[id].id
  }

  // ---- the steps of one sync

  /** Each record of the vault has one identifier, and none of them awaits deletion. */
  predicate Tidy(c: Client) {
    && (forall i, j :: 0 <= i < j < |c.vault.items| ==> c.vault.items[i].itemId != c.vault.items[j].itemId)
    && (forall i, j :: 0 <= i < j < |c.vault.sitePasskeys| && HasRecord(c.vault.sitePasskeys[i]) && HasRecord(c.vault.sitePasskeys[j])
          ==> c.vault.sitePasskeys[i].credentialId != c.vault.sitePasskeys[j].credentialId)
    && (forall i :: 0 <= i < |c.vault.items| ==> ItemRecord(c.vault.items[i].itemId) !in c.sync.pendingDeletes)
    && (forall i :: 0 <= i < |c.vault.sitePasskeys| && HasRecord(c.vault.sitePasskeys[i])
          ==> SitePasskeyRecord(c.vault.sitePasskeys[i].credentialId.value) !in c.sync.pendingDeletes)
    && (forall id :: id in c.sync.pendingDeletes ==> Tombstone(id, c.sync.pendingDeletes[id]))
  }

  predicate Tombstone(id: RecordId, p: Plain) {
    p.id == id && !id.SettingsRecord? && p.deletedAt.Some?
  }

  /** The dirty items whose last acknowledged version the device has read. */
  function EditsOf(dirty: map<RecordId, Plain>, records: map<RecordId, Meta>): map<RecordId, Plain> {
    map id | id in dirty && Copyable(dirty[id]) && KnownHash(records, id).Sha256? :: dirty[id]
  }

  /** The records remembered without a digest. */
  function Unknown(records: map<RecordId, Meta>): set<RecordId> {
    set id | id in records && records[id].hash == NoHash
  }

  function StartSync(dev: Dev, account: string, full: bool, now: pos): Dev {
    if !dev.phase.Idle? then dev
    else
      var sync := EnsureAccount(dev.client.sync, account);
      var client := dev.client.(sync := sync);
      var since := if full || (sync.serverSequence > 0 && sync.records == map[]) then 0 else sync.serverSequence;
      var dirty := Dirty(Active(client.vault, now), sync.records);
      Dev(client, Pulling(Pull(since, since, dirty, 0, StartPast(client, dirty)), None, since, 0))
  }

  function StartPast(client: Client, dirty: map<RecordId, Plain>): Past {
    Past(EditsOf(dirty, client.sync.records), Unknown(client.sync.records), Tidy(client), map[], {}, {}, {})
  }

  function WorkOn(client: Client, pull: Pull): Work {
    Work(client, pull.failures, pull.past.copies, pull.past.unread)
  }

  function Worked(pull: Pull, w: Work): Pull {
    pull.(failures := w.failures, past := pull.past.(copies := w.copies, unread := w.unread))
  }

  function Ended(pull: Pull, rows: map<RecordId, Row>): Pull {
    pull.(past := pull.past.(clashed := Clashed(pull.past.copies, rows)))
  }

  function PageEnd(next: nat, rows: seq<Row>): nat {
    if rows == [] then next else Max(PageEnd(next, rows[..|rows| - 1]), rows[|rows| - 1].serverSequence)
  }

  /** Work through a page, then return, fail or ask for the next one. */
  function Absorb(p: Pair, pull: Pull, key: VaultKey, page: Page, next: nat, pages: nat, newIds: seq<string>, now: pos): Pair
    requires |page.rows| <= |newIds|
  {
    var w := PullRows(WorkOn(p.dev.client, pull), key, Account(p.dev), pull.dirty, page.rows, newIds, now);
    var done := Worked(pull, w);
    var end := PageEnd(next, page.rows);
    p.(dev := Dev(w.client,
      if |page.rows| < PULL_BATCH_LIMIT then Pulled(Ended(done, p.store.rows), key)
      else if end <= next then Idle
      else if MAX_PULL_PAGES <= pages + 1 then Idle
      else Pulling(done, Some(key), end, pages + 1)))
  }

  function QueryPage(p: Pair, newIds: seq<string>, now: pos): Pair {
    var ph := p.dev.phase;
    if !ph.Pulling? then p
    else
      var page := PullSince(p.store, ph.next, PULL_BATCH_LIMIT);
      var pull := ph.pull.(sequence := Max(ph.pull.sequence, page.sequence));
      if !Unused(newIds, p) || |newIds| < |page.rows| then p
      else if ph.knownKey.Some? then Absorb(p, pull, ph.knownKey.value, page, ph.next, ph.pages, newIds, now)
      else if page.wrapped.Some? then Absorb(p, pull, page.wrapped.value.key, page, ph.next, ph.pages, newIds, now)
      else p.(dev := p.dev.(phase := AwaitingKey(pull, page, None)))
  }

  /** One `bootstrapVault` call of `ensureVaultKey`: the first offers no key, the second offers
      the candidate. The answer may be lost after the server has acted. */
  function BootstrapStep(p: Pair, candidate: VaultKey, newIds: seq<string>, now: pos, lost: bool): Pair {
    var ph := p.dev.phase;
    if !ph.AwaitingKey? || !Unused(newIds, p) || |newIds| < |ph.page.rows| then p
    else
      var offered := if ph.candidate.None? then None else Some(Wrapped(Account(p.dev), ph.candidate.value));
      var q := p.(store := Bootstrap(p.store, offered));
      if lost then q.(dev := q.dev.(phase := Idle))
      else if q.store.wrapped.Some? then Absorb(q, ph.pull, q.store.wrapped.value.key, ph.page, ph.pull.since, 0, newIds, now)
      else q.(dev := q.dev.(phase := ph.(candidate := Some(candidate))))
  }

  function BuildStep(dev: Dev, pendingOrder: seq<RecordId>, recordOrder: seq<RecordId>, now: pos): Dev {
    var ph := dev.phase;
    var sync := dev.client.sync;
    if !ph.Pulled? || !Enumerates(pendingOrder, sync.pendingDeletes.Keys) || !Enumerates(recordOrder, sync.records.Keys) then dev
    else
      assert forall id :: id in pendingOrder ==> id in Elements(pendingOrder);
      var b := Build(ph.key, Account(dev), dev.client.deviceId, sync.records, PushList(dev.client.vault, sync, pendingOrder, recordOrder, now));
      Dev(dev.client.(sync := sync.(records := b.records)),
          Pushing(ph.pull, ph.key, b.queue, b.plainById, sync.serverSequence))
  }

  function RecordsOf(queue: seq<Queued>): seq<Encrypted> {
    seq(|queue|, i requires 0 <= i < |queue| => queue[i].record)
  }

  /** The numbers of the rows that an answer names, as far as the device could open them. */
  function Heard(key: VaultKey, account: string, o: PushOutcome): set<nat> {
    (set a | a in o.accepted :: a.serverSequence)
    + (set row | row in o.conflicts && Decrypt(key, account, row).Some? :: row.serverSequence)
  }

  function Answered(pull: Pull, w: Work, heard: set<nat>): Pull {
    pull.(failures := w.failures, past := pull.past.(copies := w.copies, heard := pull.past.heard + heard))
  }

  /** One `pushBatch` call with the next `n` records. The answer may be lost after the server has
      acted; an exception leaves the server as it was and ends the sync. */
  function PushStep(p: Pair, n: nat, newIds: seq<string>, now: pos, lost: bool): Pair {
    var ph := p.dev.phase;
    if !ph.Pushing? || |ph.queue| < n || n == 0 || !Unused(newIds, p) || |newIds| < n then p
    else
      match PushBatch(p.store, RecordsOf(ph.queue[..n]))
      case None => p.(dev := p.dev.(phase := Idle))
      case Some(o) =>
        if lost then Pair(p.dev.(phase := Idle), o.store)
        else
          var w := TakeOutcome(WorkOn(p.dev.client, ph.pull), ph.key, Account(p.dev), ph.plainById, o, newIds, now);
          Pair(Dev(w.client, ph.(pull := Answered(ph.pull, w, Heard(ph.key, Account(p.dev), o)), queue := ph.queue[n..],
                                 sequence := Max(ph.sequence, o.store.sequence))),
               o.store)
  }

  function FinishStep(dev: Dev): Dev {
    if dev.phase.Pushing? && dev.phase.queue == [] then
      Dev(dev.client.(sync := dev.client.sync.(serverSequence := Max(dev.phase.pull.sequence, dev.phase.sequence))), Idle)
    else dev
  }

  // ---- actions of a device

  datatype Action =
    | Edit(vault: Vault, pendingDeletes: map<RecordId, Plain>)
    | Start(account: string, full: bool, now: pos)
    | RegisterDevice
    | Query(newIds: seq<string>, now: pos)
    | BootstrapKey(candidate: VaultKey, newIds: seq<string>, now: pos, lost: bool)
    | BuildPush(pendingOrder: seq<RecordId>, recordOrder: seq<RecordId>, now: pos)
    | Push(n: nat, newIds: seq<string>, now: pos, lost: bool)
    | Finish
    | Abort

  function Act(p: Pair, act: Action): Pair {
    match act
    case Edit(vault, pending) =>
      if p.dev.phase.Idle? then p.(dev := p.dev.(client := p.dev.client.(vault := vault, sync := p.dev.client.sync.(pendingDeletes := pending)))) else p
    case Start(account, full, now) => p.(dev := StartSync(p.dev, account, full, now))
    case RegisterDevice => if p.dev.phase.Idle? then p else p.(store := Register(p.store, p.dev.client.deviceId))
    case Query(newIds, now) => QueryPage(p, newIds, now)
    case BootstrapKey(candidate, newIds, now, lost) => BootstrapStep(p, candidate, newIds, now, lost)
    case BuildPush(pendingOrder, recordOrder, now) => p.(dev := BuildStep(p.dev, pendingOrder, recordOrder, now))
    case Push(n, newIds, now, lost) => PushStep(p, n, newIds, now, lost)
    case Finish => p.(dev := FinishStep(p.dev))
    case Abort => p.(dev := p.dev.(phase := Idle))
  }

  // ---- the world

  datatype World = World(stores: map<string, Store>, devs: map<string, Dev>)

  datatype Event = Event(device: string, act: Action)

  function NewDev(device: string): Dev {
    Dev(Client(device, Vault([], DEFAULT_SETTINGS, []), Sync(None, 0, 0, map[], map[])), Idle)
  }

  function StoreOf(w: World, account: string): Store {
    if account in w.stores then w.stores[account] else EmptyStore
  }

  function DevOf(w: World, device: string): Dev {
    if device in w.devs then w.devs[device] else NewDev(device)
  }

  /** The account that an action concerns: the one signed in to, or the device's current one. */
  function Target(w: World, e: Event): string {
    if e.act.Start? then e.act.account else Account(DevOf(w, e.device))
  }

  function Step(w: World, e: Event): World {
    var account := Target(w, e);
    var p := Act(Pair(DevOf(w, e.device), StoreOf(w, account)), e.act);
    World(w.stores[account := p.store], w.devs[e.device := p.dev])
  }

  function Run(events: seq<Event>): World {
    if events == [] then World(map[], map[])
    else Step(Run(events[..|events| - 1]), events[|events| - 1])
  }
}
