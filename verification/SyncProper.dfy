/** Devices whose vaults are edited properly: every edit leaves each record named once, no record of
    the vault awaiting deletion, and every passkey with a creation time. Syncing keeps all of this. */
module SyncProper {
  import opened Common
  import opened SyncTypes
  import opened SyncServer
  import opened SyncServerFacts
  import opened SyncClient
  import opened SyncProtocol
  import opened SyncVault
  import opened SyncTidy
  import opened SyncInvariant
  import opened SyncSteps
  import opened SyncTheorems
  import opened SyncSurvival
  import opened SyncAgreement
  import opened SyncSolo

  /** A passkey without a creation time gets the current one in its record, and so a new digest
      at every sync. */
  ghost predicate Stamped(vault: Vault) {
    forall q :: q in vault.sitePasskeys && HasRecord(q) ==> q.createdAt.Some?
  }

  ghost predicate Proper(c: Client) {
    Tidy(c) && Stamped(c.vault) && StampsOk(c.sync.records)
  }

  ghost predicate ProperInv(dev: Dev) {
    Proper(dev.client) && (!dev.phase.Idle? ==> dev.phase.pull.past.tidy)
  }

  /** What is asked of an edit is asked of its own vault and deletions only. */
  ghost predicate ProperEdit(act: Action) {
    act.Edit? ==> Tidy(Client("", act.vault, Sync(None, 0, 0, map[], act.pendingDeletes))) && Stamped(act.vault)
  }

  ghost predicate ProperEdits(events: seq<Event>, d: string) {
    forall i :: 0 <= i < |events| && events[i].device == d ==> ProperEdit(events[i].act)
  }

  // ---- creation times

  lemma {:induction false} WithoutStamped(passkeys: seq<Passkey>, credentialId: string)
    ensures forall q :: q in WithoutPasskey(passkeys, credentialId) ==> q in passkeys
  {
    if passkeys != [] { WithoutStamped(passkeys[1..], credentialId); }
  }

  lemma ApplyStamped(vault: Vault, p: Plain)
    requires Stamped(vault)
    ensures Stamped(Apply(vault, p))
  {
    if p.id.SitePasskeyRecord? && p.body.PasskeyBody? { WithoutStamped(vault.sitePasskeys, p.id.credentialId); }
  }

  lemma PullRowStamped(w: Work, key: VaultKey, account: string, dirty: map<RecordId, Plain>, row: Row, newId: string, now: pos)
    requires Stamped(w.client.vault)
    ensures Stamped(PullRow(w, key, account, dirty, row, newId, now).client.vault)
  {
    var p := Decrypt(key, account, row);
    CopyFirstFrame(w, dirty, row, newId, now);
    if p.Some? { ApplyStamped(CopyFirst(w, dirty, row, newId, now).client.vault, p.value); }
  }

  lemma {:induction false} PullRowsStamped(w: Work, key: VaultKey, account: string, dirty: map<RecordId, Plain>, rows: seq<Row>, newIds: seq<string>, now: pos)
    requires |rows| <= |newIds| && Stamped(w.client.vault)
    ensures Stamped(PullRows(w, key, account, dirty, rows, newIds, now).client.vault)
  {
    if rows != [] {
      var n := |rows| - 1;
      PullRowsStamped(w, key, account, dirty, rows[..n], newIds, now);
      PullRowStamped(PullRows(w, key, account, dirty, rows[..n], newIds, now), key, account, dirty, rows[n], newIds[n], now);
    }
  }

  lemma RefusalProper(w: Work, key: VaultKey, account: string, plainById: map<RecordId, Plain>, row: Row, newId: string, now: pos)
    requires Stamped(w.client.vault) && StampsOk(w.client.sync.records) && RowStamped(row)
    ensures var c := TakeConflict(w, key, account, plainById, row, newId, now).client; Stamped(c.vault) && StampsOk(c.sync.records)
  {
    var local := if row.id in plainById then Some(plainById[row.id]) else None;
    var mid := if local.Some? then Preserve(w.client.vault, local.value, newId, now) else w.client.vault;
    var q := Decrypt(key, account, row);
    if q.Some? { ApplyStamped(mid, q.value); }
  }

  lemma {:induction false} RefusalsProper(w: Work, key: VaultKey, account: string, plainById: map<RecordId, Plain>, rows: seq<Row>, newIds: seq<string>, now: pos)
    requires |rows| <= |newIds| && Stamped(w.client.vault) && StampsOk(w.client.sync.records)
    requires forall k :: 0 <= k < |rows| ==> RowStamped(rows[k])
    ensures var c := TakeConflicts(w, key, account, plainById, rows, newIds, now).client; Stamped(c.vault) && StampsOk(c.sync.records)
  {
    if rows != [] {
      var n := |rows| - 1;
      RefusalsProper(w, key, account, plainById, rows[..n], newIds, now);
      RefusalProper(TakeConflicts(w, key, account, plainById, rows[..n], newIds, now), key, account, plainById, rows[n], newIds[n], now);
    }
  }

  lemma {:induction false} AcceptsProper(sync: Sync, plainById: map<RecordId, Plain>, accepted: seq<Accepted>)
    requires StampsOk(sync.records) && forall k :: 0 <= k < |accepted| ==> Genuine(plainById, accepted[k])
    ensures StampsOk(TakeAllAccepted(sync, plainById, accepted).records)
  {
    if accepted != [] {
      AcceptsProper(sync, plainById, accepted[..|accepted| - 1]);
      assert Genuine(plainById, accepted[|accepted| - 1]);
    }
  }

  // ---- one step

  lemma ProperAbsorb(account: string, p: Pair, pull: Pull, key: VaultKey, page: Page, next: nat, pages: nat, newIds: seq<string>, now: pos)
    requires StoreInv(account, p.store) && AllCurrent(p.store, page.rows) && |page.rows| <= |newIds| && Unused(newIds, p)
    requires Account(p.dev) == account && Proper(p.dev.client) && pull.past.tidy
    ensures ProperInv(Absorb(p, pull, key, page, next, pages, newIds, now).dev)
  {
    var w := WorkOn(p.dev.client, pull);
    forall k, j | 0 <= k < |newIds| && 0 <= j < |page.rows| ensures page.rows[j].id != ItemRecord(newIds[k]) {
      assert Current(p.store, page.rows[j]);
    }
    TidyPullRows(w, key, account, pull.dirty, page.rows, newIds, now);
    PullRowsStamped(w, key, account, pull.dirty, page.rows, newIds, now);
    forall k | 0 <= k < |page.rows| ensures RowStamped(page.rows[k]) {
      assert Current(p.store, page.rows[k]);
      StampedRow(account, p.store, page.rows[k]);
    }
    PullRowsStamps(w, key, account, pull.dirty, page.rows, newIds, now);
  }

  lemma ProperQuery(account: string, p: Pair, newIds: seq<string>, now: pos)
    requires StoreInv(account, p.store) && ProperInv(p.dev) && Account(p.dev) == account
    ensures ProperInv(QueryPage(p, newIds, now).dev)
  {
    var ph := p.dev.phase;
    if ph.Pulling? && Unused(newIds, p) {
      var page := PullSince(p.store, ph.next, PULL_BATCH_LIMIT);
      var pull := ph.pull.(sequence := Max(ph.pull.sequence, page.sequence));
      PageReadable(account, p.store, ph.next + 1);
      var key := if ph.knownKey.Some? then ph.knownKey else if page.wrapped.Some? then Some(page.wrapped.value.key) else None;
      if |page.rows| <= |newIds| && key.Some? {
        ProperAbsorb(account, p, pull, key.value, page, ph.next, ph.pages, newIds, now);
      }
    }
  }

  lemma ProperBootstrap(account: string, p: Pair, candidate: VaultKey, newIds: seq<string>, now: pos, lost: bool)
    requires DevInv(account, p.dev, p.store) && ProperInv(p.dev) && Account(p.dev) == account
    ensures ProperInv(BootstrapStep(p, candidate, newIds, now, lost).dev)
  {
    var q := BootstrapStep(p, candidate, newIds, now, lost);
    if p.dev.phase.AwaitingKey? { assert q.dev.client == p.dev.client; }
  }

  lemma ProperBuild(dev: Dev, pendingOrder: seq<RecordId>, recordOrder: seq<RecordId>, now: pos)
    requires ProperInv(dev)
    ensures ProperInv(BuildStep(dev, pendingOrder, recordOrder, now))
  {
    var ph := dev.phase;
    var c := dev.client;
    if ph.Pulled? && Enumerates(pendingOrder, c.sync.pendingDeletes.Keys) && Enumerates(recordOrder, c.sync.records.Keys) {
      assert forall id :: id in pendingOrder ==> id in Elements(pendingOrder);
      var list := PushList(c.vault, c.sync, pendingOrder, recordOrder, now);
      BuildVersions(ph.key, Account(dev), c.deviceId, c.sync.records, list);
      var after := Build(ph.key, Account(dev), c.deviceId, c.sync.records, list).records;
      TidyFrame(c, c.(sync := c.sync.(records := after)));
      forall id | id in after ensures StampOk(after[id]) {
        assert SameVersion(c.sync.records[id], after[id]) && StampOk(c.sync.records[id]);
      }
    }
  }

  lemma AnswersGenuine(account: string, p: Pair, n: nat)
    requires StoreInv(account, p.store) && DevInv(account, p.dev, p.store) && Account(p.dev) == account
    requires p.dev.phase.Pushing? && n <= |p.dev.phase.queue| && QueueFiled(p.dev.phase.queue, p.dev.phase.plainById)
    requires PushBatch(p.store, RecordsOf(p.dev.phase.queue[..n])).Some?
    ensures var o := PushBatch(p.store, RecordsOf(p.dev.phase.queue[..n])).value;
      forall k :: 0 <= k < |o.accepted| ==> Genuine(p.dev.phase.plainById, o.accepted[k])
  {
    var ph := p.dev.phase;
    var batch := RecordsOf(ph.queue[..n]);
    var o := PushBatch(p.store, batch).value;
    LedgerNamed(p.store);
    forall k | 0 <= k < |o.accepted| ensures Genuine(ph.plainById, o.accepted[k]) {
      var j := PushAccepts(p.store, batch, o.accepted[k]);
      assert QueuedOk(account, ph.key, p.dev.client.deviceId, p.store.log, ph.queue[j]);
    }
  }

  lemma ProperPush(account: string, p: Pair, n: nat, newIds: seq<string>, now: pos, lost: bool)
    requires StoreInv(account, p.store) && DevInv(account, p.dev, p.store) && Account(p.dev) == account
    requires ProperInv(p.dev) && EditsInv(p.dev, p.store.rows)
    ensures ProperInv(PushStep(p, n, newIds, now, lost).dev)
  {
    var ph := p.dev.phase;
    if ph.Pushing? && n <= |ph.queue| && n != 0 && Unused(newIds, p) && n <= |newIds| && !lost {
      if PushBatch(p.store, RecordsOf(ph.queue[..n])).Some? { ProperAnswer(account, p, n, newIds, now); }
    }
  }

  lemma ProperAnswer(account: string, p: Pair, n: nat, newIds: seq<string>, now: pos)
    requires StoreInv(account, p.store) && DevInv(account, p.dev, p.store) && Account(p.dev) == account
    requires p.dev.phase.Pushing? && n <= |p.dev.phase.queue| && Unused(newIds, p) && n <= |newIds|
    requires PushBatch(p.store, RecordsOf(p.dev.phase.queue[..n])).Some?
    requires ProperInv(p.dev) && EditsInv(p.dev, p.store.rows)
    ensures var ph := p.dev.phase; var o := PushBatch(p.store, RecordsOf(ph.queue[..n])).value;
      Proper(TakeOutcome(WorkOn(p.dev.client, ph.pull), ph.key, account, ph.plainById, o, newIds, now).client)
  {
    var ph := p.dev.phase;
    var batch := RecordsOf(ph.queue[..n]);
    var o := PushBatch(p.store, batch).value;
    PushOrdered(account, p, n, newIds, now);
    AnswersGenuine(account, p, n);
    AcceptsProper(p.dev.client.sync, ph.plainById, o.accepted);
    LedgerNamed(p.store);
    forall k | 0 <= k < |o.conflicts| ensures RowStamped(o.conflicts[k]) {
      var j := PushRefuses(p.store, batch, o.conflicts[k]);
      StampedRow(account, p.store, o.conflicts[k]);
    }
    var mid := WorkOn(p.dev.client.(sync := TakeAllAccepted(p.dev.client.sync, ph.plainById, o.accepted)), ph.pull);
    RefusalsProper(mid, ph.key, account, ph.plainById, o.conflicts, newIds, now);
  }

  lemma ProperStart(dev: Dev, account: string, full: bool, now: pos)
    requires dev.phase.Idle? && Proper(dev.client)
    ensures ProperInv(StartSync(dev, account, full, now))
  {
    TidyFrame(dev.client, dev.client.(sync := EnsureAccount(dev.client.sync, account)));
  }

  lemma ProperElse(p: Pair, act: Action)
    requires act.Edit? || act.RegisterDevice? || act.Finish? || act.Abort?
    requires ProperInv(p.dev) && ProperEdit(act)
    ensures ProperInv(Act(p, act).dev)
  {
    if act.Edit? {
      TidyParts(Client("", act.vault, Sync(None, 0, 0, map[], act.pendingDeletes)));
      TidyParts(Act(p, act).dev.client);
    } else {
      TidyFrame(p.dev.client, Act(p, act).dev.client);
    }
  }

  lemma ProperAct(account: string, p: Pair, act: Action)
    requires StoreInv(account, p.store) && DevInv(account, p.dev, p.store) && Account(p.dev) == account && !act.Start?
    requires ProperInv(p.dev) && EditsInv(p.dev, p.store.rows) && ProperEdit(act)
    ensures ProperInv(Act(p, act).dev)
  {
    if act.Query? { ProperQuery(account, p, act.newIds, act.now); }
    else if act.BootstrapKey? { ProperBootstrap(account, p, act.candidate, act.newIds, act.now, act.lost); }
    else if act.BuildPush? { ProperBuild(p.dev, act.pendingOrder, act.recordOrder, act.now); }
    else if act.Push? { ProperPush(account, p, act.n, act.newIds, act.now, act.lost); }
    else { ProperElse(p, act); }
  }

  // ---- every run

  lemma ProperStep(w: World, e: Event, d: string)
    requires WorldInv(w) && DeviceEdits(w, d) && ProperInv(DevOf(w, d)) && (e.device == d ==> ProperEdit(e.act))
    ensures ProperInv(DevOf(Step(w, e), d))
  {
    if d == e.device {
      StepPair(w, e);
      var a := Account(DevOf(w, d));
      assert StoreInv(a, StoreOf(w, a)) && DeviceInv(w, d);
      if !e.act.Start? {
        ProperAct(a, PairOf(w, d), e.act);
      } else if DevOf(w, d).phase.Idle? {
        ProperStart(DevOf(w, d), e.act.account, e.act.full, e.act.now);
      }
    } else {
      StepOthers(w, e, d);
    }
  }

  /** Whatever happens in a run, a device whose own edits are proper stays proper: its records are
      named once, none of them awaits deletion, its passkeys have creation times, and what it
      remembers as a deletion carries a deletion stamp. */
  lemma {:induction false} ProperRun(events: seq<Event>, d: string)
    requires ProperEdits(events, d)
    ensures ProperInv(DevOf(Run(events), d))
  {
    if events != [] {
      var init, e := events[..|events| - 1], events[|events| - 1];
      forall i | 0 <= i < |init| && init[i].device == d ensures ProperEdit(init[i].act) { assert init[i] == events[i]; }
      ProperRun(init, d);
      RunInv(init);
      RunEdits(init);
      ProperStep(Run(init), e, d);
    }
  }

  // ---- deleting an item

  lemma {:induction false} OthersKept(passkeys: seq<Passkey>, itemId: string)
    requires UniquePasskeys(passkeys)
    ensures UniquePasskeys(PasskeysOfOthers(passkeys, itemId))
    ensures forall q :: q in PasskeysOfOthers(passkeys, itemId) <==> q in passkeys && q.itemId != Some(itemId)
  {
    if passkeys != [] {
      OthersKept(passkeys[1..], itemId);
      var rest := PasskeysOfOthers(passkeys[1..], itemId);
      forall k | 0 <= k < |rest| && HasRecord(passkeys[0]) && HasRecord(rest[k]) ensures rest[k].credentialId != passkeys[0].credentialId {
        assert rest[k] in passkeys[1..];
      }
      assert passkeys == [passkeys[0]] + passkeys[1..];
    }
  }

  lemma {:induction false} DeletedListed(passkeys: seq<Passkey>, itemId: string)
    ensures forall q :: q in PasskeysOf(passkeys, itemId) <==> q in passkeys && q.itemId == Some(itemId)
  {
    if passkeys != [] {
      DeletedListed(passkeys[1..], itemId);
      assert passkeys == [passkeys[0]] + passkeys[1..];
    }
  }

  /** The record is that of one of these passkeys, and the server is to be told. */
  ghost predicate Marked(deleted: seq<Passkey>, records: map<RecordId, Meta>, signedIn: bool, id: RecordId) {
    exists q :: q in deleted && Tells(records, signedIn, q) && id == SitePasskeyRecord(q.credentialId.value)
  }

  lemma {:induction false} MarksExactly(pending: map<RecordId, Plain>, records: map<RecordId, Meta>, signedIn: bool, deleted: seq<Passkey>, now: pos, id: RecordId)
    ensures var m := MarkPasskeys(pending, records, signedIn, deleted, now);
      if Marked(deleted, records, signedIn, id) then id in m && Tombstone(id, m[id]) else BaseIn(m, id) == BaseIn(pending, id)
  {
    if deleted != [] {
      var init, q := deleted[..|deleted| - 1], deleted[|deleted| - 1];
      MarksExactly(pending, records, signedIn, init, now, id);
      assert deleted == init + [q];
      assert Marked(deleted, records, signedIn, id)
        <==> Marked(init, records, signedIn, id) || (Tells(records, signedIn, q) && id == SitePasskeyRecord(q.credentialId.value));
    }
  }

  /** Deleting an item removes it and its passkeys and nothing else from the vault, and leaves a
      deletion waiting for exactly those of their records that the server may hold. */
  lemma DeletionIsComplete(c: Client, itemId: string, signedIn: bool, now: pos, id: RecordId)
    requires UniquePasskeys(c.vault.sitePasskeys)
    ensures var d := DeleteItem(c, itemId, signedIn, now);
      && (forall it :: it in d.vault.items <==> it in c.vault.items && it.itemId != itemId)
      && (forall q :: q in d.vault.sitePasskeys <==> q in c.vault.sitePasskeys && q.itemId != Some(itemId))
      && (if (id == ItemRecord(itemId) && MustTell(c.sync.records, signedIn, id)) || Marked(PasskeysOf(c.vault.sitePasskeys, itemId), c.sync.records, signedIn, id)
          then id in d.sync.pendingDeletes && Tombstone(id, d.sync.pendingDeletes[id])
          else BaseIn(d.sync.pendingDeletes, id) == BaseIn(c.sync.pendingDeletes, id))
  {
    var deleted := PasskeysOf(c.vault.sitePasskeys, itemId);
    forall it ensures it in WithoutItem(c.vault.items, itemId) <==> it in c.vault.items && it.itemId != itemId {
      WithoutExactly(c.vault.items, itemId, it);
    }
    OthersKept(c.vault.sitePasskeys, itemId);
    MarksExactly(MarkItem(c, itemId, signedIn, now), c.sync.records, signedIn, deleted, now, id);
    assert Tombstone(ItemRecord(itemId), DeletedItemRecord(FirstItem(c.vault.items, itemId), itemId, now));
  }

  /** Deleting an item is a proper edit. */
  lemma DeletionIsProper(c: Client, itemId: string, signedIn: bool, now: pos)
    requires Tidy(c) && Stamped(c.vault) && itemId != ""
    ensures var d := DeleteItem(c, itemId, signedIn, now); Tidy(d) && Stamped(d.vault) && ProperEdit(Edit(d.vault, d.sync.pendingDeletes))
  {
    var d := DeleteItem(c, itemId, signedIn, now);
    var deleted := PasskeysOf(c.vault.sitePasskeys, itemId);
    TidyParts(c);
    WithoutIds(c.vault.items, itemId);
    OthersKept(c.vault.sitePasskeys, itemId);
    DeletedListed(c.vault.sitePasskeys, itemId);
    forall id ensures if (id == ItemRecord(itemId) && MustTell(c.sync.records, signedIn, id)) || Marked(deleted, c.sync.records, signedIn, id)
      then id in d.sync.pendingDeletes && Tombstone(id, d.sync.pendingDeletes[id])
      else BaseIn(d.sync.pendingDeletes, id) == BaseIn(c.sync.pendingDeletes, id)
    {
      DeletionIsComplete(c, itemId, signedIn, now, id);
    }
    DeletionIsComplete(c, itemId, signedIn, now, SettingsRecord);
    forall q | q in d.vault.sitePasskeys && HasRecord(q) ensures SitePasskeyRecord(q.credentialId.value) !in d.sync.pendingDeletes {
      NotMarked(c.vault.sitePasskeys, c.sync.records, signedIn, itemId, q);
    }
    TidyParts(d);
    TidyParts(Client("", d.vault, Sync(None, 0, 0, map[], d.sync.pendingDeletes)));
  }

  lemma NotMarked(passkeys: seq<Passkey>, records: map<RecordId, Meta>, signedIn: bool, itemId: string, q: Passkey)
    requires UniquePasskeys(passkeys) && itemId != "" && q in passkeys && HasRecord(q) && q.itemId != Some(itemId)
    ensures !Marked(PasskeysOf(passkeys, itemId), records, signedIn, SitePasskeyRecord(q.credentialId.value))
  {
    DeletedListed(passkeys, itemId);
    var i :| 0 <= i < |passkeys| && passkeys[i] == q;
    forall r | r in PasskeysOf(passkeys, itemId) && Tells(records, signedIn, r) ensures r.credentialId != q.credentialId {
      var j :| 0 <= j < |passkeys| && passkeys[j] == r;
      assert HasRecord(r);
    }
  }
}
