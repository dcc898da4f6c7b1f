/** The device as an object whose sync state and vault are updated in place, working against a
    `Server` object. `stage` holds the local variables of a running sync; the protocol's phase, which
    adds the history variables, is ghost. Every method does exactly what its protocol step describes. */
module DeviceMachine {
  import opened Common
  import opened SyncTypes
  import S = SyncServer
  import opened SyncClient
  import opened SyncProtocol
  import opened ServerMachine

  /** The local variables of `pullRemote` that outlive a page. */
  datatype Vars = Vars(since: nat, sequence: nat, dirty: map<RecordId, Plain>, failures: nat)

  /** Where a sync stands between two calls of the server. */
  datatype Stage =
    | AtRest
    | PageDue(vars: Vars, knownKey: Option<VaultKey>, next: nat, pages: nat)
    | KeyDue(vars: Vars, page: S.Page, candidate: Option<VaultKey>)
    | QueueDue(vars: Vars, key: VaultKey)
    | PushDue(vars: Vars, key: VaultKey, queue: seq<Encrypted>, plainById: map<RecordId, Plain>, sequence: nat)

  function VarsOf(pull: Pull): Vars {
    Vars(pull.since, pull.sequence, pull.dirty, pull.failures)
  }

  /** The phase without its history. */
  function Bare(phase: Phase): Stage {
    match phase
    case Idle => AtRest
    case Pulling(pull, knownKey, next, pages) => PageDue(VarsOf(pull), knownKey, next, pages)
    case AwaitingKey(pull, page, candidate) => KeyDue(VarsOf(pull), page, candidate)
    case Pulled(pull, key) => QueueDue(VarsOf(pull), key)
    case Pushing(pull, key, queue, plainById, sequence) => PushDue(VarsOf(pull), key, RecordsOf(queue), plainById, sequence)
  }

  class Device {
    const deviceId: string
    var accountId: Option<string>
    var conflictCount: nat
    var serverSequence: nat
    var records: map<RecordId, Meta>
    var pendingDeletes: map<RecordId, Plain>
    var items: seq<Item>
    var settings: map<string, string>
    var sitePasskeys: seq<Passkey>
    var stage: Stage
    ghost var phase: Phase

    ghost predicate Valid()
      reads this
    {
      stage == Bare(phase)
    }

    function VaultNow(): Vault
      reads this
    {
      Vault(items, settings, sitePasskeys)
    }

    function SyncNow(): Sync
      reads this
    {
      Sync(accountId, conflictCount, serverSequence, records, pendingDeletes)
    }

    function ClientNow(): Client
      reads this
    {
      Client(deviceId, VaultNow(), SyncNow())
    }

    ghost function State(): Dev
      reads this
    {
      Dev(ClientNow(), phase)
    }

    ghost predicate Is(dev: Dev)
      reads this
    {
      Valid() && State() == dev
    }

    constructor (deviceId: string)
      ensures Valid() && State() == NewDev(deviceId) && this.deviceId == deviceId
    {
      this.deviceId := deviceId;
      accountId, conflictCount, serverSequence, records, pendingDeletes := None, 0, 0, map[], map[];
      items, settings, sitePasskeys, stage, phase := [], DEFAULT_SETTINGS, [], AtRest, Idle;
    }

    // ---- src/desktop/sync-state.ts

    method EnsureAccountState(account: string)
      modifies this
      ensures ClientNow() == old(ClientNow()).(sync := EnsureAccount(old(SyncNow()), account))
      ensures stage == old(stage) && phase == old(phase)
    {
      if accountId == Some(account) { return; }
      accountId, records, pendingDeletes, conflictCount, serverSequence := Some(account), map[], map[], 0, 0;
    }

    method ApplySyncRecord(p: Plain)
      modifies this
      ensures ClientNow() == old(ClientNow()).(vault := Apply(old(VaultNow()), p)) && stage == old(stage) && phase == old(phase)
    {
      match p.id {
        case ItemRecord(itemId) =>
          if p.body.ItemBody? {
            items := if p.deletedAt.Some? then WithoutItem(items, itemId) else Upsert(items, itemId, p.body, p.updatedAt);
          }
        case SettingsRecord =>
          if p.body.SettingsBody? && p.deletedAt.None? { settings := DEFAULT_SETTINGS + p.body.settings; }
        case SitePasskeyRecord(credentialId) =>
          if p.body.PasskeyBody? { ApplySitePasskey(credentialId, p.body, p.deletedAt.Some?); }
      }
    }

    method ApplySitePasskey(credentialId: string, body: Body, deleted: bool)
      requires body.PasskeyBody?
      modifies this
      ensures ClientNow() == old(ClientNow()).(vault := ApplyPasskey(old(VaultNow()), credentialId, body, deleted))
      ensures stage == old(stage) && phase == old(phase)
    {
      sitePasskeys := WithoutPasskey(sitePasskeys, credentialId);
      if !deleted {
        sitePasskeys := sitePasskeys + [Passkey(Some(credentialId), Some(body.itemId), Some(body.passkeyId), Some(body.title),
                                                Some(body.signCount), Some(body.createdAt), body.rest)];
      }
      var before := items;
      for i := 0 to |before|
        invariant |items| == |before|
        invariant forall k :: 0 <= k < i ==> items[k] == Relink(before[k], credentialId, body, deleted)
        invariant forall k :: i <= k < |before| ==> items[k] == before[k]
        invariant SyncNow() == old(SyncNow()) && stage == old(stage) && phase == old(phase) && settings == old(settings)
        invariant sitePasskeys == ApplyPasskey(old(VaultNow()), credentialId, body, deleted).sitePasskeys
      {
        items := items[i := Relink(items[i], credentialId, body, deleted)];
      }
      assert items == ApplyPasskey(old(VaultNow()), credentialId, body, deleted).items;
    }

    method PreserveSyncConflict(p: Plain, newId: string, now: pos)
      modifies this
      ensures ClientNow() == old(ClientNow()).(vault := Preserve(old(VaultNow()), p, newId, now)) && stage == old(stage) && phase == old(phase)
    {
      if Copyable(p) { items := items + [ConflictCopy(p, newId, now)]; }
    }

    // ---- src/desktop/delete-tombstones.ts

    /** `markSyncSitePasskeyDeleted` for each of an item's passkeys. */
    method MarkPasskeysDeleted(deleted: seq<Passkey>, signedIn: bool, now: pos)
      modifies this`pendingDeletes
      ensures pendingDeletes == MarkPasskeys(old(pendingDeletes), records, signedIn, deleted, now)
    {
      for i := 0 to |deleted|
        invariant pendingDeletes == MarkPasskeys(old(pendingDeletes), records, signedIn, deleted[..i], now)
      {
        assert deleted[..i + 1][..i] == deleted[..i];
        if Tells(records, signedIn, deleted[i]) {
          var credentialId := deleted[i].credentialId.value;
          pendingDeletes := pendingDeletes[SitePasskeyRecord(credentialId) := DeletedPasskeyRecord(deleted[i], credentialId, now)];
        }
      }
      assert deleted[..|deleted|] == deleted;
    }

    /** `markItemDeleted` and the removal of the item. */
    method DeleteItem(itemId: string, signedIn: bool, now: pos)
      modifies this
      ensures ClientNow() == SyncClient.DeleteItem(old(ClientNow()), itemId, signedIn, now) && stage == old(stage) && phase == old(phase)
    {
      var deleted := PasskeysOf(sitePasskeys, itemId);
      sitePasskeys := PasskeysOfOthers(sitePasskeys, itemId);
      if MustTell(records, signedIn, ItemRecord(itemId)) {
        pendingDeletes := pendingDeletes[ItemRecord(itemId) := DeletedItemRecord(FirstItem(items, itemId), itemId, now)];
      }
      MarkPasskeysDeleted(deleted, signedIn, now);
      items := WithoutItem(items, itemId);
    }

    /** Any edit between syncs. */
    method EditVault(vault: Vault, deletes: map<RecordId, Plain>)
      requires Valid()
      modifies this
      ensures Valid() && forall s: S.Store :: Pair(State(), s) == Act(Pair(old(State()), s), Edit(vault, deletes))
    {
      if !stage.AtRest? { return; }
      items, settings, sitePasskeys, pendingDeletes := vault.items, vault.settings, vault.sitePasskeys, deletes;
    }

    // ---- src/desktop/sync.ts: start of a sync

    /** `dirtyLocalRecords`. */
    method DirtyLocalRecords(list: seq<Plain>) returns (dirty: map<RecordId, Plain>)
      ensures dirty == Dirty(list, records)
    {
      dirty := map[];
      for i := 0 to |list|
        invariant dirty == Dirty(list[..i], records)
      {
        assert list[..i + 1][..i] == list[..i];
        if KnownHash(records, list[i].id) != Hash(list[i]) { dirty := dirty[list[i].id := list[i]]; }
      }
      assert list[..|list|] == list;
    }

    method Start(account: string, full: bool, now: pos)
      requires Valid()
      modifies this
      ensures Valid() && State() == StartSync(old(State()), account, full, now)
    {
      if !stage.AtRest? { return; }
      EnsureAccountState(account);
      var since := if full || (serverSequence > 0 && records == map[]) then 0 else serverSequence;
      var dirty := DirtyLocalRecords(Active(VaultNow(), now));
      stage := PageDue(Vars(since, since, dirty, 0), None, since, 0);
      phase := StartSync(old(State()), account, full, now).phase;
    }

    // ---- src/desktop/sync.ts: pullRemote

    /** The object is what the work describes. */
    ghost predicate Mirrors(w: Work, failures: nat)
      reads this
    {
      w.client == ClientNow() && w.failures == failures
    }

    method PullOne(ghost w: Work, key: VaultKey, account: string, dirty: map<RecordId, Plain>, row: Row, newId: string, now: pos, failures0: nat)
      returns (failures: nat)
      requires Mirrors(w, failures0)
      modifies this
      ensures Mirrors(PullRow(w, key, account, dirty, row, newId, now), failures) && stage == old(stage) && phase == old(phase)
    {
      failures := failures0;
      if row.id in records && records[row.id].hash == row.hash {
        var local := records[row.id];
        records := records[row.id := local.(revision := Max(local.revision, row.revision), serverSequence := row.serverSequence, deletedAt := row.deletedAt)];
        if row.deletedAt.Some? { pendingDeletes := pendingDeletes - {row.id}; }
        return;
      }
      var plain := Decrypt(key, account, row);
      if plain.None? {
        failures := failures + 1;
        var itemId := if row.id in records then records[row.id].itemId else None;
        records := records[row.id := MetaOfUnread(row, itemId)];
        return;
      }
      var p := plain.value;
      if row.id in pendingDeletes {
        if p.deletedAt.Some? { pendingDeletes := pendingDeletes - {row.id}; }
        records := records[row.id := MetaOfRow(row, MetaItemId(p))];
        return;
      }
      if Stale(SyncNow(), row) {
        conflictCount := conflictCount + 1;
        return;
      }
      PullUnpended(w, dirty, row, p, newId, now, failures);
    }

    /** The rest of the loop body: keep a dirty edit as a copy, then apply the row. */
    method PullUnpended(ghost w: Work, dirty: map<RecordId, Plain>, row: Row, p: Plain, newId: string, now: pos, ghost failures: nat)
      requires Mirrors(w, failures)
      modifies this
      ensures Mirrors(PullFresh(w, dirty, row, p, newId, now), failures) && stage == old(stage) && phase == old(phase)
    {
      if NeedsCopy(SyncNow(), dirty, row) {
        PreserveSyncConflict(dirty[row.id], newId, now);
        conflictCount := conflictCount + 1;
      }
      assert Mirrors(CopyFirst(w, dirty, row, newId, now), failures);
      ApplySyncRecord(p);
      records := records[row.id := MetaOfRow(row, MetaItemId(p))];
    }

    /** The loop over the rows of one page. */
    method PullPage(ghost w: Work, key: VaultKey, account: string, dirty: map<RecordId, Plain>, list: seq<Row>, next: nat, newIds: seq<string>, now: pos, failures0: nat)
      returns (failures: nat, end: nat)
      requires |list| <= |newIds| && Mirrors(w, failures0)
      modifies this
      ensures Mirrors(PullRows(w, key, account, dirty, list, newIds, now), failures)
      ensures end == PageEnd(next, list) && stage == old(stage) && phase == old(phase)
    {
      failures, end := failures0, next;
      for i := 0 to |list|
        invariant Mirrors(PullRows(w, key, account, dirty, list[..i], newIds, now), failures)
        invariant end == PageEnd(next, list[..i]) && stage == old(stage) && phase == old(phase)
      {
        PullRowsStep(w, key, account, dirty, list, i, newIds, now);
        PageEndStep(next, list, i);
        end := Max(end, list[i].serverSequence);
        failures := PullOne(PullRows(w, key, account, dirty, list[..i], newIds, now), key, account, dirty, list[i], newIds[i], now, failures);
      }
      assert list[..|list|] == list;
    }

    /** One page: work through its rows, then return, throw or go on. */
    method TakePage(ghost pull: Pull, vars: Vars, key: VaultKey, page: S.Page, next: nat, pages: nat, newIds: seq<string>, now: pos, ghost store: S.Store)
      requires |page.rows| <= |newIds| && vars == VarsOf(pull)
      modifies this
      ensures Valid() && State() == Absorb(Pair(old(State()), store), pull, key, page, next, pages, newIds, now).dev
    {
      var account := accountId.GetOr("");
      ghost var w := PullRows(WorkOn(ClientNow(), pull), key, account, pull.dirty, page.rows, newIds, now);
      var failures, end := PullPage(WorkOn(ClientNow(), pull), key, account, vars.dirty, page.rows, next, newIds, now, vars.failures);
      var done := vars.(failures := failures);
      assert done == VarsOf(Worked(pull, w));
      if |page.rows| < PULL_BATCH_LIMIT { stage := QueueDue(done, key); }
      else if end <= next { stage := AtRest; }
      else if MAX_PULL_PAGES <= pages + 1 { stage := AtRest; }
      else { stage := PageDue(done, Some(key), end, pages + 1); }
      phase := Absorb(Pair(old(State()), store), pull, key, page, next, pages, newIds, now).dev.phase;
    }

    method Query(server: Server, newIds: seq<string>, now: pos)
      requires Valid() && stage.PageDue? && Unused(newIds, Pair(State(), server.State())) && PULL_BATCH_LIMIT <= |newIds|
      modifies this
      ensures Valid() && Pair(State(), server.State()) == QueryPage(old(Pair(State(), server.State())), newIds, now)
    {
      var at := stage;
      var page := server.PullSince(at.next, PULL_BATCH_LIMIT);
      S.ScanBound(server.State(), at.next + 1, PULL_BATCH_LIMIT);
      ghost var pull := phase.pull.(sequence := Max(phase.pull.sequence, page.sequence));
      var vars := at.vars.(sequence := Max(at.vars.sequence, page.sequence));
      if at.knownKey.Some? {
        TakePage(pull, vars, at.knownKey.value, page, at.next, at.pages, newIds, now, server.State());
      } else if page.wrapped.Some? {
        TakePage(pull, vars, page.wrapped.value.key, page, at.next, at.pages, newIds, now, server.State());
      } else {
        stage, phase := KeyDue(vars, page, None), AwaitingKey(pull, page, None);
      }
    }

    /** One call of `ensureVaultKey`. */
    method EnsureVaultKey(server: Server, candidate: VaultKey, newIds: seq<string>, now: pos, lost: bool)
      requires Valid() && stage.KeyDue? && Unused(newIds, Pair(State(), server.State())) && |stage.page.rows| <= |newIds|
      modifies this, server
      ensures Valid() && Pair(State(), server.State()) == BootstrapStep(old(Pair(State(), server.State())), candidate, newIds, now, lost)
    {
      var at := stage;
      var wrapped, needsSetup := server.BootstrapVault(if at.candidate.None? then None else Some(Wrapped(accountId.GetOr(""), at.candidate.value)));
      if lost { stage, phase := AtRest, Idle; }
      else if wrapped.Some? { TakePage(phase.pull, at.vars, wrapped.value.key, at.page, at.vars.since, 0, newIds, now, server.State()); }
      else { stage, phase := at.(candidate := Some(candidate)), phase.(candidate := Some(candidate)); }
    }

    // ---- src/desktop/sync.ts: pushLocal

    /** Seal what differs from the server, and refresh the metadata of what does not. */
    method BuildQueue(key: VaultKey, account: string, list: seq<Plain>) returns (queue: seq<Encrypted>, plainById: map<RecordId, Plain>)
      modifies this
      ensures var b := Build(key, account, deviceId, old(records), list);
        records == b.records && queue == RecordsOf(b.queue) && plainById == b.plainById
      ensures ClientNow() == old(ClientNow()).(sync := old(SyncNow()).(records := records)) && stage == old(stage) && phase == old(phase)
    {
      queue, plainById := [], map[];
      for i := 0 to |list|
        invariant var b := Build(key, account, deviceId, old(records), list[..i]);
          records == b.records && queue == RecordsOf(b.queue) && plainById == b.plainById
        invariant VaultNow() == old(VaultNow()) && stage == old(stage) && phase == old(phase) && SyncNow() == old(SyncNow()).(records := records)
      {
        BuildTakes(key, account, deviceId, old(records), list, i);
        var p := list[i];
        if p.id in records && records[p.id].hash == Hash(p) {
          records := records[p.id := records[p.id].(itemId := MetaItemId(p))];
        } else {
          queue := queue + [Encrypt(key, account, deviceId, RevisionOn(BaseOf(records, p.id)), p)];
          plainById := plainById[p.id := p];
        }
      }
      assert list[..|list|] == list;
    }

    method BuildPush(pendingOrder: seq<RecordId>, recordOrder: seq<RecordId>, now: pos)
      requires Valid() && stage.QueueDue? && Enumerates(pendingOrder, pendingDeletes.Keys) && Enumerates(recordOrder, records.Keys)
      modifies this
      ensures Valid() && State() == BuildStep(old(State()), pendingOrder, recordOrder, now)
    {
      var at := stage;
      assert forall id :: id in pendingOrder ==> id in Elements(pendingOrder);
      var list := PushList(VaultNow(), SyncNow(), pendingOrder, recordOrder, now);
      var queue, plainById := BuildQueue(at.key, accountId.GetOr(""), list);
      stage := PushDue(at.vars, at.key, queue, plainById, serverSequence);
      phase := BuildStep(old(State()), pendingOrder, recordOrder, now).phase;
    }

    method TakeAccepts(plainById: map<RecordId, Plain>, accepted: seq<Accepted>)
      modifies this
      ensures ClientNow() == old(ClientNow()).(sync := TakeAllAccepted(old(SyncNow()), plainById, accepted)) && stage == old(stage) && phase == old(phase)
    {
      ghost var before := SyncNow();
      for i := 0 to |accepted|
        invariant SyncNow() == TakeAllAccepted(before, plainById, accepted[..i])
        invariant VaultNow() == old(VaultNow()) && stage == old(stage) && phase == old(phase)
      {
        assert accepted[..i + 1][..i] == accepted[..i];
        var a := accepted[i];
        var p := if a.id in plainById then Some(plainById[a.id]) else None;
        var deletedAt := if p.Some? then p.value.deletedAt else None;
        records := records[a.id := Meta(a.revision, a.hash, a.serverSequence, deletedAt, if p.Some? then MetaItemId(p.value) else None)];
        if deletedAt.Some? { pendingDeletes := pendingDeletes - {a.id}; }
      }
      assert accepted[..|accepted|] == accepted;
    }

    method TakeRefusal(ghost w: Work, key: VaultKey, account: string, plainById: map<RecordId, Plain>, row: Row, newId: string, now: pos, failures0: nat)
      returns (failures: nat)
      requires Mirrors(w, failures0)
      modifies this
      ensures Mirrors(TakeConflict(w, key, account, plainById, row, newId, now), failures) && stage == old(stage) && phase == old(phase)
    {
      var local := if row.id in plainById then Some(plainById[row.id]) else None;
      if local.Some? && local.value.deletedAt.Some? {
        failures := TakeRefusedDelete(w, key, account, row, failures0);
      } else {
        failures := TakeRefusedEdit(w, key, account, local, row, newId, now, failures0);
      }
    }

    method TakeRefusedDelete(ghost w: Work, key: VaultKey, account: string, row: Row, failures0: nat) returns (failures: nat)
      requires Mirrors(w, failures0)
      modifies this
      ensures Mirrors(RefusedDelete(w, key, account, row), failures) && stage == old(stage) && phase == old(phase)
    {
      failures := failures0;
      conflictCount := conflictCount + 1;
      var plain := Decrypt(key, account, row);
      if plain.None? { failures := failures + 1; return; }
      if plain.value.deletedAt.Some? { pendingDeletes := pendingDeletes - {row.id}; }
      records := records[row.id := MetaOfRow(row, MetaItemId(plain.value))];
    }

    method TakeRefusedEdit(ghost w: Work, key: VaultKey, account: string, local: Option<Plain>, row: Row, newId: string, now: pos, failures0: nat)
      returns (failures: nat)
      requires Mirrors(w, failures0)
      modifies this
      ensures Mirrors(RefusedEdit(w, key, account, local, row, newId, now), failures) && stage == old(stage) && phase == old(phase)
    {
      failures := failures0;
      if local.Some? {
        PreserveSyncConflict(local.value, newId, now);
        conflictCount := conflictCount + 1;
      }
      var plain := Decrypt(key, account, row);
      if plain.None? { failures := failures + 1; return; }
      ApplySyncRecord(plain.value);
      records := records[row.id := MetaOfRow(row, MetaItemId(plain.value))];
    }

    method TakeRefusals(ghost w: Work, key: VaultKey, account: string, plainById: map<RecordId, Plain>, rows: seq<Row>, newIds: seq<string>, now: pos, failures0: nat)
      returns (failures: nat)
      requires |rows| <= |newIds| && Mirrors(w, failures0)
      modifies this
      ensures Mirrors(TakeConflicts(w, key, account, plainById, rows, newIds, now), failures) && stage == old(stage) && phase == old(phase)
    {
      failures := failures0;
      for i := 0 to |rows|
        invariant Mirrors(TakeConflicts(w, key, account, plainById, rows[..i], newIds, now), failures)
        invariant stage == old(stage) && phase == old(phase)
      {
        TakeConflictsStep(w, key, account, plainById, rows, i, newIds, now);
        failures := TakeRefusal(TakeConflicts(w, key, account, plainById, rows[..i], newIds, now), key, account, plainById, rows[i], newIds[i], now, failures);
      }
      assert rows[..|rows|] == rows;
    }

    /** One `pushBatch` call with the next `n` records, and what its answer changes. */
    method Push(server: Server, n: nat, newIds: seq<string>, now: pos, lost: bool)
      requires Valid() && stage.PushDue? && 0 < n <= |stage.queue| && Unused(newIds, Pair(State(), server.State())) && n <= |newIds|
      modifies this, server
      ensures Valid() && Pair(State(), server.State()) == PushStep(old(Pair(State(), server.State())), n, newIds, now, lost)
    {
      var at := stage;
      var account := accountId.GetOr("");
      ghost var before := Pair(State(), server.State());
      QueueHead(phase.queue, n);
      var answer := server.PushBatch(at.queue[..n]);
      if answer.None? || lost {
        stage, phase := AtRest, Idle;
        return;
      }
      var (sequence, accepted, conflicts) := answer.value;
      ghost var w := WorkOn(ClientNow(), phase.pull);
      TakeAccepts(at.plainById, accepted);
      var failures := TakeRefusals(w.(client := ClientNow()), at.key, account, at.plainById, conflicts, newIds, now, at.vars.failures);
      stage := at.(vars := at.vars.(failures := failures), queue := at.queue[n..], sequence := Max(at.sequence, sequence));
      phase := PushStep(before, n, newIds, now, lost).dev.phase;
    }

    method Finish()
      requires Valid()
      modifies this
      ensures Valid() && State() == FinishStep(old(State()))
    {
      if stage.PushDue? && stage.queue == [] {
        serverSequence := Max(stage.vars.sequence, stage.sequence);
        stage, phase := AtRest, Idle;
      }
    }

    /** The exception that ends a sync anywhere. */
    method Abort()
      requires Valid()
      modifies this
      ensures Valid() && State() == old(State()).(phase := Idle)
    {
      stage, phase := AtRest, Idle;
    }
  }

  // ---- one more turn of each loop

  lemma PullRowsStep(w: Work, key: VaultKey, account: string, dirty: map<RecordId, Plain>, rows: seq<Row>, i: nat, newIds: seq<string>, now: pos)
    requires i < |rows| <= |newIds|
    ensures PullRows(w, key, account, dirty, rows[..i + 1], newIds, now)
         == PullRow(PullRows(w, key, account, dirty, rows[..i], newIds, now), key, account, dirty, rows[i], newIds[i], now)
  {
    assert rows[..i + 1][..i] == rows[..i];
  }

  lemma TakeConflictsStep(w: Work, key: VaultKey, account: string, plainById: map<RecordId, Plain>, rows: seq<Row>, i: nat, newIds: seq<string>, now: pos)
    requires i < |rows| <= |newIds|
    ensures TakeConflicts(w, key, account, plainById, rows[..i + 1], newIds, now)
         == TakeConflict(TakeConflicts(w, key, account, plainById, rows[..i], newIds, now), key, account, plainById, rows[i], newIds[i], now)
  {
    assert rows[..i + 1][..i] == rows[..i];
  }

  lemma PageEndStep(next: nat, rows: seq<Row>, i: nat)
    requires i < |rows|
    ensures PageEnd(next, rows[..i + 1]) == Max(PageEnd(next, rows[..i]), rows[i].serverSequence)
  {
    assert rows[..i + 1][..i] == rows[..i];
  }

  lemma BuildTakes(key: VaultKey, account: string, deviceId: string, records: map<RecordId, Meta>, list: seq<Plain>, i: nat)
    requires i < |list|
    ensures Build(key, account, deviceId, records, list[..i + 1])
         == BuildOne(key, account, deviceId, Build(key, account, deviceId, records, list[..i]), list[i])
  {
    assert list[..i + 1][..i] == list[..i];
  }

  lemma QueueHead(queue: seq<Queued>, n: nat)
    requires n <= |queue|
    ensures RecordsOf(queue)[..n] == RecordsOf(queue[..n]) && RecordsOf(queue)[n..] == RecordsOf(queue[n..])
  {
  }
}
