/** What sync is for: a quiet device holds exactly the living records of the server, and so any two
    quiet devices of one account hold the same. */
module SyncConverged {
  import opened Common
  import opened SyncTypes
  import opened SyncServer
  import opened SyncServerFacts
  import opened SyncClient
  import opened SyncProtocol
  import opened SyncTidy
  import opened SyncInvariant
  import opened SyncSteps
  import opened SyncTheorems
  import opened SyncSurvival
  import opened SyncAgreement
  import opened SyncSolo
  import opened SyncProper
  import opened SyncQuiet
  import SyncListed

  // ---- where a deletion stamp comes from

  /** A version that is remembered as deleted, though its digest is that of a payload, is a row that
      carries a deletion stamp itself. */
  ghost predicate Explained(log: seq<Row>, m: Meta) {
    (m.hash.Sha256? && m.hash.deletedAt.None? && m.deletedAt.Some?) ==> 1 <= m.serverSequence <= |log| && log[m.serverSequence - 1].deletedAt.Some?
  }

  ghost predicate AllExplained(log: seq<Row>, records: map<RecordId, Meta>) {
    forall id :: id in records ==> Explained(log, records[id])
  }

  lemma ExplainedGrows(s: Store, t: Store, records: map<RecordId, Meta>)
    requires Extends(s, t) && AllExplained(s.log, records)
    ensures AllExplained(t.log, records)
  {
    forall id | id in records ensures Explained(t.log, records[id]) {
      assert Explained(s.log, records[id]);
      var n := records[id].serverSequence;
      if 1 <= n <= |s.log| { PrefixEntry(s.log, t.log, n - 1); }
    }
  }

  lemma PullRowExplained(w: Work, key: VaultKey, account: string, dirty: map<RecordId, Plain>, row: Row, newId: string, now: pos, log: seq<Row>)
    requires AllExplained(log, w.client.sync.records) && Filed(log, row, row.id)
    ensures AllExplained(log, PullRow(w, key, account, dirty, row, newId, now).client.sync.records)
  {
    var records := w.client.sync.records;
    if row.id in records && records[row.id].hash == row.hash {
      OneExplained(records, PullKnown(w, row).client.sync.records, row.id, log);
    } else {
      var p := Decrypt(key, account, row);
      if p.None? {
        OneExplained(records, PullUnreadable(w, row).client.sync.records, row.id, log);
      } else if row.id in w.client.sync.pendingDeletes {
        OneExplained(records, PullOverPending(w, row, p.value).client.sync.records, row.id, log);
      } else if !Stale(w.client.sync, row) {
        PullFreshExplained(w, dirty, row, p.value, newId, now, log);
      }
    }
  }

  lemma PullFreshExplained(w: Work, dirty: map<RecordId, Plain>, row: Row, p: Plain, newId: string, now: pos, log: seq<Row>)
    requires AllExplained(log, w.client.sync.records) && Filed(log, row, row.id)
    ensures AllExplained(log, PullFresh(w, dirty, row, p, newId, now).client.sync.records)
  {
    CopyFirstFrame(w, dirty, row, newId, now);
    OneExplained(w.client.sync.records, PullFresh(w, dirty, row, p, newId, now).client.sync.records, row.id, log);
  }

  lemma OneExplained(before: map<RecordId, Meta>, after: map<RecordId, Meta>, id: RecordId, log: seq<Row>)
    requires AllExplained(log, before) && id in after && after == before[id := after[id]] && Explained(log, after[id])
    ensures AllExplained(log, after)
  {
    forall k | k in after ensures Explained(log, after[k]) {
      if k != id { assert Explained(log, before[k]); }
    }
  }

  predicate AllFiled(log: seq<Row>, rows: seq<Row>) {
    forall k :: 0 <= k < |rows| ==> rows[k].serverSequence <= |log| && 1 <= rows[k].serverSequence && log[rows[k].serverSequence - 1] == rows[k] && 1 <= rows[k].revision
  }

  lemma FiledInit(log: seq<Row>, rows: seq<Row>)
    requires rows != [] && AllFiled(log, rows)
    ensures AllFiled(log, rows[..|rows| - 1]) && Filed(log, rows[|rows| - 1], rows[|rows| - 1].id)
  {
  }

  lemma PullRowsLast(w: Work, key: VaultKey, account: string, dirty: map<RecordId, Plain>, rows: seq<Row>, newIds: seq<string>, now: pos)
    requires 0 < |rows| <= |newIds|
    ensures var n := |rows| - 1;
      PullRows(w, key, account, dirty, rows, newIds, now)
      == PullRow(PullRows(w, key, account, dirty, rows[..n], newIds, now), key, account, dirty, rows[n], newIds[n], now)
  {
  }

  lemma {:induction false} PullRowsExplained(w: Work, key: VaultKey, account: string, dirty: map<RecordId, Plain>, rows: seq<Row>, newIds: seq<string>, now: pos, log: seq<Row>)
    requires |rows| <= |newIds| && AllExplained(log, w.client.sync.records) && AllFiled(log, rows)
    ensures AllExplained(log, PullRows(w, key, account, dirty, rows, newIds, now).client.sync.records)
  {
    if rows != [] {
      var n := |rows| - 1;
      FiledInit(log, rows);
      PullRowsExplained(w, key, account, dirty, rows[..n], newIds, now, log);
      var mid := PullRows(w, key, account, dirty, rows[..n], newIds, now);
      PullRowExplained(mid, key, account, dirty, rows[n], newIds[n], now, log);
      PullRowsLast(w, key, account, dirty, rows, newIds, now);
    }
  }

  lemma RefusalExplained(w: Work, key: VaultKey, account: string, plainById: map<RecordId, Plain>, row: Row, newId: string, now: pos, log: seq<Row>)
    requires AllExplained(log, w.client.sync.records) && Filed(log, row, row.id)
    ensures AllExplained(log, TakeConflict(w, key, account, plainById, row, newId, now).client.sync.records)
  {
    var records, after := w.client.sync.records, TakeConflict(w, key, account, plainById, row, newId, now).client.sync.records;
    forall id | id in after ensures Explained(log, after[id]) {
      if id != row.id { assert Explained(log, records[id]); }
    }
  }

  lemma {:induction false} RefusalsExplained(w: Work, key: VaultKey, account: string, plainById: map<RecordId, Plain>, rows: seq<Row>, newIds: seq<string>, now: pos, log: seq<Row>)
    requires |rows| <= |newIds| && AllExplained(log, w.client.sync.records) && AllFiled(log, rows)
    ensures AllExplained(log, TakeConflicts(w, key, account, plainById, rows, newIds, now).client.sync.records)
  {
    if rows != [] {
      var n := |rows| - 1;
      RefusalsExplained(w, key, account, plainById, rows[..n], newIds, now, log);
      RefusalExplained(TakeConflicts(w, key, account, plainById, rows[..n], newIds, now), key, account, plainById, rows[n], newIds[n], now, log);
    }
  }

  lemma {:induction false} AcceptsExplained(sync: Sync, plainById: map<RecordId, Plain>, accepted: seq<Accepted>, log: seq<Row>)
    requires AllExplained(log, sync.records) && forall k :: 0 <= k < |accepted| ==> Genuine(plainById, accepted[k])
    ensures AllExplained(log, TakeAllAccepted(sync, plainById, accepted).records)
  {
    if accepted != [] {
      AcceptsExplained(sync, plainById, accepted[..|accepted| - 1], log);
      assert Genuine(plainById, accepted[|accepted| - 1]);
    }
  }

  // ---- one step

  ghost predicate ExplainedInv(p: Pair) {
    AllExplained(p.store.log, p.dev.client.sync.records)
  }

  lemma CurrentFiled(s: Store, rows: seq<Row>)
    requires Ledger(s) && AllCurrent(s, rows)
    ensures AllFiled(s.log, rows)
  {
    forall k | 0 <= k < |rows| ensures Filed(s.log, rows[k], rows[k].id) { assert Current(s, rows[k]); }
  }

  lemma ExplainedQuery(account: string, p: Pair, newIds: seq<string>, now: pos)
    requires StoreInv(account, p.store) && ExplainedInv(p)
    ensures AllExplained(p.store.log, QueryPage(p, newIds, now).dev.client.sync.records)
  {
    var ph := p.dev.phase;
    if ph.Pulling? && Unused(newIds, p) {
      var page := PullSince(p.store, ph.next, PULL_BATCH_LIMIT);
      var pull := ph.pull.(sequence := Max(ph.pull.sequence, page.sequence));
      PageReadable(account, p.store, ph.next + 1);
      CurrentFiled(p.store, page.rows);
      var key := if ph.knownKey.Some? then ph.knownKey else if page.wrapped.Some? then Some(page.wrapped.value.key) else None;
      if |page.rows| <= |newIds| && key.Some? {
        PullRowsExplained(WorkOn(p.dev.client, pull), key.value, Account(p.dev), pull.dirty, page.rows, newIds, now, p.store.log);
      }
    }
  }

  lemma ExplainedBootstrap(account: string, p: Pair, candidate: VaultKey, newIds: seq<string>, now: pos, lost: bool)
    requires StoreInv(account, p.store) && DevInv(account, p.dev, p.store) && ExplainedInv(p) && Account(p.dev) == account
    ensures AllExplained(p.store.log, BootstrapStep(p, candidate, newIds, now, lost).dev.client.sync.records)
  {
    if p.dev.phase.AwaitingKey? { assert BootstrapStep(p, candidate, newIds, now, lost).dev.client == p.dev.client; }
  }

  lemma ExplainedElse(p: Pair, act: Action)
    requires ExplainedInv(p) && (act.Edit? || act.RegisterDevice? || act.Finish? || act.Abort?)
    ensures AllExplained(p.store.log, Act(p, act).dev.client.sync.records)
  {
    assert Act(p, act).dev.client.sync.records == p.dev.client.sync.records;
  }

  lemma ExplainedBuild(dev: Dev, pendingOrder: seq<RecordId>, recordOrder: seq<RecordId>, now: pos, log: seq<Row>)
    requires AllExplained(log, dev.client.sync.records)
    ensures AllExplained(log, BuildStep(dev, pendingOrder, recordOrder, now).client.sync.records)
  {
    var ph, c := dev.phase, dev.client;
    if ph.Pulled? && Enumerates(pendingOrder, c.sync.pendingDeletes.Keys) && Enumerates(recordOrder, c.sync.records.Keys) {
      assert forall id :: id in pendingOrder ==> id in Elements(pendingOrder);
      var list := PushList(c.vault, c.sync, pendingOrder, recordOrder, now);
      BuildVersions(ph.key, Account(dev), c.deviceId, c.sync.records, list);
      SameExplained(c.sync.records, Build(ph.key, Account(dev), c.deviceId, c.sync.records, list).records, log);
    }
  }

  lemma SameExplained(before: map<RecordId, Meta>, after: map<RecordId, Meta>, log: seq<Row>)
    requires SameVersions(before, after) && AllExplained(log, before)
    ensures AllExplained(log, after)
  {
    forall id | id in after ensures Explained(log, after[id]) {
      assert SameVersion(before[id], after[id]) && Explained(log, before[id]);
    }
  }

  lemma ExplainedAnswer(account: string, p: Pair, n: nat, newIds: seq<string>, now: pos)
    requires StoreInv(account, p.store) && DevInv(account, p.dev, p.store) && Account(p.dev) == account
    requires p.dev.phase.Pushing? && n <= |p.dev.phase.queue| <= n + |p.dev.phase.queue| && n <= |newIds|
    requires PushBatch(p.store, RecordsOf(p.dev.phase.queue[..n])).Some?
    requires ProperInv(p.dev) && EditsInv(p.dev, p.store.rows) && ExplainedInv(p)
    ensures var ph := p.dev.phase; var o := PushBatch(p.store, RecordsOf(ph.queue[..n])).value;
      AllExplained(p.store.log, TakeOutcome(WorkOn(p.dev.client, ph.pull), ph.key, account, ph.plainById, o, newIds, now).client.sync.records)
  {
    var ph := p.dev.phase;
    var batch := RecordsOf(ph.queue[..n]);
    var o := PushBatch(p.store, batch).value;
    AnswersGenuine(account, p, n);
    AcceptsExplained(p.dev.client.sync, ph.plainById, o.accepted, p.store.log);
    LedgerNamed(p.store);
    forall k | 0 <= k < |o.conflicts| ensures Current(p.store, o.conflicts[k]) {
      var j := PushRefuses(p.store, batch, o.conflicts[k]);
    }
    CurrentFiled(p.store, o.conflicts);
    var mid := WorkOn(p.dev.client.(sync := TakeAllAccepted(p.dev.client.sync, ph.plainById, o.accepted)), ph.pull);
    RefusalsExplained(mid, ph.key, account, ph.plainById, o.conflicts, newIds, now, p.store.log);
  }

  /** What the device remembers after the step is explained by the history before it. */
  lemma ExplainedBefore(account: string, p: Pair, act: Action)
    requires StoreInv(account, p.store) && DevInv(account, p.dev, p.store) && Account(p.dev) == account && !act.Start?
    requires ProperInv(p.dev) && EditsInv(p.dev, p.store.rows) && ExplainedInv(p)
    ensures AllExplained(p.store.log, Act(p, act).dev.client.sync.records)
  {
    if act.Query? { ExplainedQuery(account, p, act.newIds, act.now); }
    else if act.BootstrapKey? { ExplainedBootstrap(account, p, act.candidate, act.newIds, act.now, act.lost); }
    else if act.BuildPush? { ExplainedBuild(p.dev, act.pendingOrder, act.recordOrder, act.now, p.store.log); }
    else if act.Push? { ExplainedPush(account, p, act.n, act.newIds, act.now, act.lost); }
    else { ExplainedElse(p, act); }
  }

  lemma ExplainedPush(account: string, p: Pair, n: nat, newIds: seq<string>, now: pos, lost: bool)
    requires StoreInv(account, p.store) && DevInv(account, p.dev, p.store) && Account(p.dev) == account
    requires ProperInv(p.dev) && EditsInv(p.dev, p.store.rows) && ExplainedInv(p)
    ensures AllExplained(p.store.log, PushStep(p, n, newIds, now, lost).dev.client.sync.records)
  {
    var ph := p.dev.phase;
    if ph.Pushing? && n <= |ph.queue| && n != 0 && Unused(newIds, p) && n <= |newIds| && !lost {
      if PushBatch(p.store, RecordsOf(ph.queue[..n])).Some? { ExplainedAnswer(account, p, n, newIds, now); }
    }
  }

  lemma ExplainedAct(account: string, p: Pair, act: Action)
    requires StoreInv(account, p.store) && DevInv(account, p.dev, p.store) && Account(p.dev) == account && !act.Start?
    requires ProperInv(p.dev) && EditsInv(p.dev, p.store.rows) && ExplainedInv(p)
    ensures ExplainedInv(Act(p, act))
  {
    ExplainedBefore(account, p, act);
    ActKeeps(account, p, act);
    ExplainedGrows(p.store, Act(p, act).store, Act(p, act).dev.client.sync.records);
  }

  // ---- every run

  lemma ExplainedStart(w: World, e: Event)
    requires WorldInv(w) && ExplainedInv(PairOf(w, e.device)) && e.act.Start?
    ensures ExplainedInv(PairOf(Step(w, e), e.device))
  {
    StepPair(w, e);
  }

  lemma ExplainedOwnStep(w: World, e: Event)
    requires WorldInv(w) && DeviceEdits(w, e.device) && ProperInv(DevOf(w, e.device)) && ExplainedInv(PairOf(w, e.device)) && !e.act.Start?
    ensures ExplainedInv(PairOf(Step(w, e), e.device))
  {
    var a, p := Account(DevOf(w, e.device)), PairOf(w, e.device);
    assert StoreInv(a, p.store) && DevInv(a, p.dev, p.store) by { assert StoreInv(a, StoreOf(w, a)) && DeviceInv(w, e.device); }
    ExplainedAct(a, p, e.act);
    assert PairOf(Step(w, e), e.device) == Act(p, e.act) by { StepPair(w, e); }
  }

  lemma ExplainedOthersStep(w: World, e: Event, d: string)
    requires WorldInv(w) && ExplainedInv(PairOf(w, d)) && d != e.device
    ensures ExplainedInv(PairOf(Step(w, e), d))
  {
    StepOthers(w, e, d);
    var a := Account(DevOf(w, d));
    ExplainedGrows(StoreOf(w, a), StoreOf(Step(w, e), a), DevOf(w, d).client.sync.records);
  }

  lemma {:induction false} ExplainedRun(events: seq<Event>, d: string)
    requires ProperEdits(events, d)
    ensures ExplainedInv(PairOf(Run(events), d))
  {
    if events != [] {
      var init, e := events[..|events| - 1], events[|events| - 1];
      forall i | 0 <= i < |init| && init[i].device == d ensures ProperEdit(init[i].act) { assert init[i] == events[i]; }
      ExplainedRun(init, d);
      RunInv(init);
      RunEdits(init);
      ProperRun(init, d);
      if e.device != d { ExplainedOthersStep(Run(init), e, d); }
      else if e.act.Start? { ExplainedStart(Run(init), e); }
      else { ExplainedOwnStep(Run(init), e); }
    }
  }

  // ---- a quiet device holds what the server has

  /** Nothing was written over a deletion: a row with a deletion stamp is a deletion. */
  ghost predicate NothingRevived(rows: map<RecordId, Row>) {
    forall id :: id in rows && rows[id].deletedAt.Some? ==> rows[id].hash.Sha256? && rows[id].hash.deletedAt.Some?
  }

  /** Everything known of the device, and it could open all it knows of. */
  ghost predicate Settled(account: string, p: Pair) {
    && StoreInv(account, p.store) && DevInv(account, p.dev, p.store) && ExplainedInv(p) && Quiet(p)
    && p.dev.client.sync.accountId == Some(account) && Unknown(p.dev.client.sync.records) == {}
  }

  lemma KnownIsRow(account: string, p: Pair, id: RecordId)
    requires Settled(account, p) && id in p.dev.client.sync.records
    ensures var m := p.dev.client.sync.records[id];
      && id in p.store.rows && m.hash == p.store.rows[id].hash && 1 <= m.serverSequence <= |p.store.log|
      && p.store.log[m.serverSequence - 1] == p.store.rows[id]
  {
    var records := p.dev.client.sync.records;
    assert Held(p.store.log, id, records[id]);
    CurrentRow(p.store, id, records[id]);
    assert Knows(records, p.store.rows[id], id);
    assert records[id].hash == NoHash ==> id in Unknown(records);
  }

  /** What the device holds is the server's row. */
  lemma HeldIsRow(account: string, p: Pair, t: pos, r: Plain)
    requires Settled(account, p) && r in Active(p.dev.client.vault, t)
    ensures r.id in p.store.rows && p.store.rows[r.id].hash == Hash(r)
  {
    KnownAtAnyTime(p.dev.client.vault, p.dev.client.sync, t, r);
    KnownIsRow(account, p, r.id);
  }

  lemma PendingIsDeletion(active: seq<Plain>, sync: Sync, id: RecordId)
    requires AllPlaced(active, sync, [])
    ensures id in sync.pendingDeletes ==> KnownHash(sync.records, id).Sha256? && KnownHash(sync.records, id).deletedAt.Some?
  {
    if id in sync.pendingDeletes {
      assert Tombstone(id, sync.pendingDeletes[id]) && Placed(sync.records, [], sync.pendingDeletes[id]);
    }
  }

  lemma LivingIsPlaced(account: string, p: Pair, id: RecordId, at: pos)
    requires Settled(account, p) && NothingRevived(p.store.rows) && AllPlaced(Active(p.dev.client.vault, at), p.dev.client.sync, [])
    requires id in p.store.rows && p.store.rows[id].deletedAt.None?
    ensures id in Ids(Active(p.dev.client.vault, at))
  {
    var sync, row := p.dev.client.sync, p.store.rows[id];
    PendingIsDeletion(Active(p.dev.client.vault, at), sync, id);
    assert Knows(sync.records, row, id);
    KnownIsRow(account, p, id);
    StampedRow(account, p.store, row);
    assert Explained(p.store.log, sync.records[id]);
    assert Accounted(Active(p.dev.client.vault, at), sync, [], id);
  }

  /** A row that is not deleted is held by the device. */
  lemma LivingIsHeld(account: string, p: Pair, t: pos, id: RecordId) returns (r: Plain)
    requires Settled(account, p) && NothingRevived(p.store.rows) && id in p.store.rows && p.store.rows[id].deletedAt.None?
    ensures r in Active(p.dev.client.vault, t) && r.id == id && Hash(r) == p.store.rows[id].hash
  {
    var vault, sync := p.dev.client.vault, p.dev.client.sync;
    var at: pos :| AllPlaced(Active(vault, at), sync, []);
    LivingIsPlaced(account, p, id, at);
    var s :| s in Active(vault, at) && s.id == id;
    r := SameHashes(vault, at, t, s);
    HeldIsRow(account, p, t, r);
  }

  // ---- two devices

  predicate SameItem(a: Item, b: Item) {
    a.itemId == b.itemId && a.itemType == b.itemType && a.itemName == b.itemName && a.fields == b.fields
  }

  /** The same credential with the same fields, as far as they are synced; a missing one counts as its default. */
  predicate SamePasskey(a: Passkey, b: Passkey) {
    && a.credentialId == b.credentialId && a.itemId == b.itemId && a.createdAt == b.createdAt && a.rest == b.rest && a.credentialId.Some?
    && SyncListed.TextOr(a.id, a.credentialId.value) == SyncListed.TextOr(b.id, a.credentialId.value)
    && SyncListed.TextOr(a.title, "Saved passkey") == SyncListed.TextOr(b.title, "Saved passkey")
    && (if a.signCount.Some? then a.signCount.value else 0) == (if b.signCount.Some? then b.signCount.value else 0)
  }

  /** All that one vault holds is in the other. */
  ghost predicate Includes(a: Vault, b: Vault) {
    && (forall x :: x in b.items ==> exists y :: y in a.items && SameItem(x, y))
    && (forall x :: x in b.sitePasskeys && SyncListed.Identified(x) ==> exists y :: y in a.sitePasskeys && SyncListed.Identified(y) && SamePasskey(x, y))
    && a.settings == b.settings
  }

  lemma RecordInBoth(account: string, p: Pair, q: Pair, t: pos, r: Plain) returns (s: Plain)
    requires Settled(account, p) && Settled(account, q) && p.store == q.store && NothingRevived(p.store.rows)
    requires r in Active(q.dev.client.vault, t)
    ensures s in Active(p.dev.client.vault, t) && s.id == r.id && s.body == r.body
  {
    HeldIsRow(account, q, t, r);
    ActiveIsLiving(q.dev.client.vault, t, r);
    s := LivingIsHeld(account, p, t, r.id);
  }

  lemma ActiveIsLiving(vault: Vault, t: pos, r: Plain)
    requires r in Active(vault, t)
    ensures r.deletedAt.None?
  {
    SyncListed.ActiveCarries(vault, t);
    assert SyncListed.OfVault(r, vault, t);
  }

  lemma ItemInBoth(account: string, p: Pair, q: Pair, x: Item) returns (y: Item)
    requires Settled(account, p) && Settled(account, q) && p.store == q.store && NothingRevived(p.store.rows)
    requires x in q.dev.client.vault.items
    ensures y in p.dev.client.vault.items && SameItem(x, y)
  {
    var mine, theirs := p.dev.client.vault, q.dev.client.vault;
    SyncListed.ActiveCarries(theirs, 1);
    SyncListed.ActiveCarries(mine, 1);
    var i :| 0 <= i < |theirs.items| && theirs.items[i] == x;
    assert SyncListed.DescribesItem(Active(theirs, 1)[i], x, 1);
    var s := RecordInBoth(account, p, q, 1, Active(theirs, 1)[i]);
    assert SyncListed.OfVault(s, mine, 1);
    y :| y in mine.items && SyncListed.DescribesItem(s, y, 1);
  }

  lemma PasskeyInBoth(account: string, p: Pair, q: Pair, x: Passkey) returns (y: Passkey)
    requires Settled(account, p) && Settled(account, q) && p.store == q.store && NothingRevived(p.store.rows)
    requires x in q.dev.client.vault.sitePasskeys && SyncListed.Identified(x)
    ensures y in p.dev.client.vault.sitePasskeys && SyncListed.Identified(y) && SamePasskey(x, y)
  {
    var mine, theirs := p.dev.client.vault, q.dev.client.vault;
    SyncListed.ActiveCarries(theirs, 1);
    SyncListed.ActiveCarries(mine, 1);
    assert SyncListed.PasskeyListed(Active(theirs, 1), x, 1);
    var r :| r in Active(theirs, 1) && SyncListed.DescribesPasskey(r, x, 1);
    var s := RecordInBoth(account, p, q, 1, r);
    assert SyncListed.OfVault(s, mine, 1);
    y :| y in mine.sitePasskeys && SyncListed.Identified(y) && SyncListed.DescribesPasskey(s, y, 1);
    SyncListed.IdentifiedHasRecord(x);
    SyncListed.IdentifiedHasRecord(y);
  }

  lemma SettingsInBoth(account: string, p: Pair, q: Pair)
    requires Settled(account, p) && Settled(account, q) && p.store == q.store && NothingRevived(p.store.rows)
    ensures p.dev.client.vault.settings == q.dev.client.vault.settings
  {
    var mine, theirs := p.dev.client.vault, q.dev.client.vault;
    SyncListed.ActiveCarries(theirs, 1);
    SyncListed.ActiveCarries(mine, 1);
    var r :| r in Active(theirs, 1) && SyncListed.DescribesSettings(r, theirs, 1);
    var s := RecordInBoth(account, p, q, 1, r);
    assert SyncListed.OfVault(s, mine, 1);
  }

  lemma QuietIncludes(account: string, p: Pair, q: Pair)
    requires Settled(account, p) && Settled(account, q) && p.store == q.store && NothingRevived(p.store.rows)
    ensures Includes(p.dev.client.vault, q.dev.client.vault)
  {
    forall x | x in q.dev.client.vault.items ensures exists y :: y in p.dev.client.vault.items && SameItem(x, y) {
      var y := ItemInBoth(account, p, q, x);
    }
    forall x | x in q.dev.client.vault.sitePasskeys && SyncListed.Identified(x)
      ensures exists y :: y in p.dev.client.vault.sitePasskeys && SyncListed.Identified(y) && SamePasskey(x, y)
    {
      var y := PasskeyInBoth(account, p, q, x);
    }
    SettingsInBoth(account, p, q);
  }

  // ---- main results

  /** The device signed in to the account, is quiet and could open all it knows of. */
  ghost predicate AtRest(events: seq<Event>, d: string, account: string) {
    var p := PairOf(Run(events), d);
    Quiet(p) && p.dev.client.sync.accountId == Some(account) && Unknown(p.dev.client.sync.records) == {}
  }

  lemma AtRestIsSettled(events: seq<Event>, d: string, account: string)
    requires ProperEdits(events, d) && AtRest(events, d, account)
    ensures Settled(account, PairOf(Run(events), d)) && PairOf(Run(events), d).store == StoreOf(Run(events), account)
  {
    RunInv(events);
    ExplainedRun(events, d);
    assert StoreInv(account, StoreOf(Run(events), account)) && DeviceInv(Run(events), d);
  }

  /** In every run, a device at rest holds nothing but rows of the server, and holds every row that is
      not deleted, if nothing was written over a deletion. */
  lemma DeviceAtRestHoldsTheServer(events: seq<Event>, d: string, account: string, t: pos)
    requires ProperEdits(events, d) && AtRest(events, d, account) && NothingRevived(StoreOf(Run(events), account).rows)
    ensures var rows := StoreOf(Run(events), account).rows; var list := Active(DevOf(Run(events), d).client.vault, t);
      && (forall r :: r in list ==> r.id in rows && rows[r.id].deletedAt.None? && rows[r.id].hash == Hash(r))
      && (forall id :: id in rows && rows[id].deletedAt.None? ==> exists r :: r in list && r.id == id && rows[id].hash == Hash(r))
  {
    AtRestIsSettled(events, d, account);
    var p := PairOf(Run(events), d);
    forall r | r in Active(p.dev.client.vault, t) ensures r.id in p.store.rows && p.store.rows[r.id].deletedAt.None? && p.store.rows[r.id].hash == Hash(r) {
      HeldIsRow(account, p, t, r);
      ActiveIsLiving(p.dev.client.vault, t, r);
    }
    forall id | id in p.store.rows && p.store.rows[id].deletedAt.None?
      ensures exists r :: r in Active(p.dev.client.vault, t) && r.id == id && p.store.rows[id].hash == Hash(r)
    {
      var r := LivingIsHeld(account, p, t, id);
    }
  }

  /** In every run, any two devices of one account that are at rest hold the same items, passkeys and
      settings, however their syncs were interleaved, if nothing was written over a deletion. */
  lemma DevicesAtRestHoldTheSame(events: seq<Event>, d: string, e: string, account: string)
    requires ProperEdits(events, d) && ProperEdits(events, e) && AtRest(events, d, account) && AtRest(events, e, account)
    requires NothingRevived(StoreOf(Run(events), account).rows)
    ensures var a, b := DevOf(Run(events), d).client.vault, DevOf(Run(events), e).client.vault; Includes(a, b) && Includes(b, a)
  {
    AtRestIsSettled(events, d, account);
    AtRestIsSettled(events, e, account);
    QuietIncludes(account, PairOf(Run(events), d), PairOf(Run(events), e));
    QuietIncludes(account, PairOf(Run(events), e), PairOf(Run(events), d));
  }
}
