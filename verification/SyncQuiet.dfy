/** A proper device on firm ground: nothing it pushes is refused, its sync ends in agreement with the
    server, and another sync without edits does nothing. */
module SyncQuiet {
  import opened Common
  import opened SyncTypes
  import opened SyncServer
  import opened SyncServerFacts
  import opened SyncClient
  import opened SyncProtocol
  import opened SyncVault
  import opened SyncTidy
  import opened SyncInvariant
  import opened SyncSteps
  import opened SyncTheorems
  import opened SyncSurvival
  import opened SyncAgreement
  import opened SyncSolo
  import opened SyncCursor
  import opened SyncProper

  ghost predicate PlacedNow(vault: Vault, sync: Sync, queue: seq<Queued>) {
    exists now: pos :: AllPlaced(Active(vault, now), sync, queue)
  }

  /** Everything the device holds is on the server or in the queue, and the queue sits on top of what
      the server has. */
  ghost predicate PlacedInv(p: Pair) {
    p.dev.phase.Pushing? ==>
      && QueueOnTop(p.store.rows, p.dev.phase.queue, p.dev.phase.plainById)
      && PlacedNow(p.dev.client.vault, p.dev.client.sync, p.dev.phase.queue)
  }

  // ---- building

  lemma PlacedBuild(account: string, p: Pair, pendingOrder: seq<RecordId>, recordOrder: seq<RecordId>, now: pos)
    requires StoreInv(account, p.store) && DevInv(account, p.dev, p.store) && Account(p.dev) == account
    requires GapInv(p) && ProperInv(p.dev) && PlacedInv(p)
    ensures PlacedInv(p.(dev := BuildStep(p.dev, pendingOrder, recordOrder, now)))
  {
    var ph := p.dev.phase;
    var c := p.dev.client;
    if ph.Pulled? && Enumerates(pendingOrder, c.sync.pendingDeletes.Keys) && Enumerates(recordOrder, c.sync.records.Keys) {
      assert forall id :: id in pendingOrder ==> id in Elements(pendingOrder);
      var list := PushList(c.vault, c.sync, pendingOrder, recordOrder, now);
      var b := Build(ph.key, account, c.deviceId, c.sync.records, list);
      BuildAllPlaced(ph.key, account, c, pendingOrder, recordOrder, now);
      PushListIds(c, pendingOrder, recordOrder, now);
      BuildFiles(ph.key, account, c.deviceId, c.sync.records, list);
      forall k | 0 <= k < |b.queue| ensures OnTop(p.store.rows, b.queue[k]) {
        BuildBases(ph.key, account, c.deviceId, c.sync.records, list, k);
        QueuedOnTop(account, ph.key, c.deviceId, p.store, c.sync.records, b.queue[k]);
      }
    }
  }

  // ---- pushing

  /** What a push leaves alone. */
  ghost predicate Untouched(c: Client, d: Client) {
    d.vault == c.vault && d.sync.conflictCount == c.sync.conflictCount
  }

  lemma PlacedPush(account: string, p: Pair, n: nat, newIds: seq<string>, now: pos, lost: bool)
    requires StoreInv(account, p.store) && DevInv(account, p.dev, p.store) && Account(p.dev) == account && PlacedInv(p)
    ensures var q := PushStep(p, n, newIds, now, lost); PlacedInv(q) && Untouched(p.dev.client, q.dev.client)
  {
    var ph := p.dev.phase;
    if ph.Pushing? && n <= |ph.queue| && n != 0 && Unused(newIds, p) && n <= |newIds| && !lost {
      if PushBatch(p.store, RecordsOf(ph.queue[..n])).Some? { PlacedAnswer(account, p, n, newIds, now); }
    }
  }

  lemma {:induction false} AcceptedCounts(sync: Sync, plainById: map<RecordId, Plain>, accepted: seq<Accepted>)
    ensures TakeAllAccepted(sync, plainById, accepted).conflictCount == sync.conflictCount
  {
    if accepted != [] { AcceptedCounts(sync, plainById, accepted[..|accepted| - 1]); }
  }

  lemma PlacedAnswer(account: string, p: Pair, n: nat, newIds: seq<string>, now: pos)
    requires StoreInv(account, p.store) && DevInv(account, p.dev, p.store) && Account(p.dev) == account && PlacedInv(p)
    requires p.dev.phase.Pushing? && 0 < n <= |p.dev.phase.queue| && Unused(newIds, p) && n <= |newIds|
    requires PushBatch(p.store, RecordsOf(p.dev.phase.queue[..n])).Some?
    ensures var q := PushStep(p, n, newIds, now, false); PlacedInv(q) && Untouched(p.dev.client, q.dev.client)
  {
    var ph := p.dev.phase;
    var c := p.dev.client;
    var batch := RecordsOf(ph.queue[..n]);
    var o := PushBatch(p.store, batch).value;
    NothingRefused(p.store, ph.queue, ph.plainById, n);
    TailOnTop(p.store, ph.queue, ph.plainById, n);
    BatchPlacesNow(c.vault, c.sync, ph.queue, ph.plainById, n, o.accepted);
    AcceptedCounts(c.sync, ph.plainById, o.accepted);
    var q := PushStep(p, n, newIds, now, false);
    assert q.dev.client == c.(sync := TakeAllAccepted(c.sync, ph.plainById, o.accepted));
    assert q.dev.phase.queue == ph.queue[n..];
  }

  lemma BatchPlacesNow(vault: Vault, sync: Sync, queue: seq<Queued>, plainById: map<RecordId, Plain>, n: nat, accepted: seq<Accepted>)
    requires PlacedNow(vault, sync, queue) && QueueFiled(queue, plainById) && n <= |queue|
    requires forall k :: 0 <= k < |accepted| ==> Genuine(plainById, accepted[k])
    requires forall k :: 0 <= k < n ==> queue[k].plain.id in AcceptedIds(accepted)
    requires forall k :: 0 <= k < |accepted| ==> FromHead(queue, n, accepted[k].id)
    ensures PlacedNow(vault, TakeAllAccepted(sync, plainById, accepted), queue[n..])
  {
    HeadIsAccepted(queue, plainById, n, accepted);
    var at: pos :| AllPlaced(Active(vault, at), sync, queue);
    BatchPlaces(Active(vault, at), sync, queue, plainById, n, accepted);
    assert AllPlaced(Active(vault, at), TakeAllAccepted(sync, plainById, accepted), queue[n..]);
  }

  lemma {:induction false} NoRejectionNoException(s: Store, batch: seq<Encrypted>)
    requires DistinctIds(batch) && forall k :: 0 <= k < |batch| ==> !Decide(Find(s.rows, batch[k].id), batch[k]).RejectNewRevision?
    ensures PushRecords(s, batch).Some?
  {
    if batch != [] {
      NoRejectionNoException(s, batch[..|batch| - 1]);
      PushLeavesOthers(s, batch[..|batch| - 1], batch[|batch| - 1].id);
    }
  }

  /** A registered device whose queue is on top gets every batch of up to a hundred records through. */
  lemma PushGoesThrough(account: string, p: Pair, n: nat)
    requires StoreInv(account, p.store) && DevInv(account, p.dev, p.store) && Account(p.dev) == account && PlacedInv(p)
    requires p.dev.phase.Pushing? && 0 < n <= |p.dev.phase.queue| && n <= MAX_PUSH_BATCH_RECORDS
    requires p.dev.client.deviceId in p.store.devices
    ensures PushBatch(p.store, RecordsOf(p.dev.phase.queue[..n])).Some?
  {
    var ph := p.dev.phase;
    var batch := RecordsOf(ph.queue[..n]);
    forall k | 0 <= k < n
      ensures 1 <= batch[k].revision && batch[k].hash.Sha256? && batch[k].deviceId == p.dev.client.deviceId && batch[k].id == ph.queue[k].plain.id
      ensures !Decide(Find(p.store.rows, batch[k].id), batch[k]).RejectNewRevision?
    {
      assert OnTop(p.store.rows, ph.queue[k]);
      assert QueuedOk(account, ph.key, p.dev.client.deviceId, p.store.log, ph.queue[k]);
    }
    forall i, j | 0 <= i < j < n ensures batch[i].id != batch[j].id {
      assert ph.queue[i].plain.id != ph.queue[j].plain.id;
    }
    NoRejectionNoException(p.store, batch);
  }

  // ---- every run

  lemma PlacedAct(account: string, p: Pair, act: Action)
    requires StoreInv(account, p.store) && DevInv(account, p.dev, p.store) && Account(p.dev) == account && !act.Start?
    requires GapInv(p) && ProperInv(p.dev) && PlacedInv(p)
    ensures PlacedInv(Act(p, act))
  {
    if act.BuildPush? { PlacedBuild(account, p, act.pendingOrder, act.recordOrder, act.now); }
    else if act.Push? { PlacedPush(account, p, act.n, act.newIds, act.now, act.lost); }
    else { PlacedElse(p, act); }
  }

  lemma PlacedElse(p: Pair, act: Action)
    requires !act.Start? && !act.BuildPush? && !act.Push? && PlacedInv(p)
    ensures PlacedInv(Act(p, act))
  {
    assert Act(p, act).store.rows == p.store.rows;
    if Act(p, act).dev.phase.Pushing? { assert Act(p, act).dev == p.dev; }
  }

  lemma PlacedGrows(account: string, dev: Dev, s: Store, t: Store)
    requires Ledger(s) && Ledger(t) && PlacedInv(Pair(dev, s)) && (InGap(dev.phase) ==> t.log == s.log)
    ensures PlacedInv(Pair(dev, t))
  {
    if InGap(dev.phase) { SameLogSameRows(s, t); }
  }

  lemma PlacedStep(w: World, e: Event, d: string, f: Firm)
    requires WorldInv(w) && FirmInv(PairOf(w, d), f) && ProperInv(DevOf(w, d))
    requires f.sync ==> PlacedInv(PairOf(w, d))
    ensures FirmNext(w, e, d, f).sync ==> PlacedInv(PairOf(Step(w, e), d))
  {
    var a := Account(DevOf(w, d));
    if d != e.device {
      StepOthers(w, e, d);
      if f.sync && !LandsInGap(w, e, d) { PlacedGrows(a, DevOf(w, d), StoreOf(w, a), StoreOf(Step(w, e), a)); }
    } else {
      StepPair(w, e);
      assert StoreInv(a, StoreOf(w, a)) && DeviceInv(w, d);
      if !e.act.Start? && f.sync { PlacedAct(a, PairOf(w, d), e.act); }
    }
  }

  lemma {:induction false} PlacedRun(events: seq<Event>, d: string)
    requires ProperEdits(events, d)
    ensures FirmAfter(events, d).sync ==> PlacedInv(PairOf(Run(events), d))
  {
    if events != [] {
      var init, e := events[..|events| - 1], events[|events| - 1];
      forall i | 0 <= i < |init| && init[i].device == d ensures ProperEdit(init[i].act) { assert init[i] == events[i]; }
      PlacedRun(init, d);
      RunInv(init);
      FirmRun(init, d);
      ProperRun(init, d);
      PlacedStep(Run(init), e, d, FirmAfter(init, d));
    }
  }

  /** In every run, a push of a proper device on firm ground conflicts with nothing: the vault and the
      conflict count stay as they are, and if the device is registered the batch goes through. */
  lemma FirmPushIsAccepted(events: seq<Event>, d: string, n: nat, newIds: seq<string>, now: pos)
    requires ProperEdits(events, d) && FirmAfter(events, d).sync
    requires var ph := DevOf(Run(events), d).phase; ph.Pushing? && 0 < n <= |ph.queue| && n <= MAX_PUSH_BATCH_RECORDS
    ensures var p := PairOf(Run(events), d);
      && Untouched(p.dev.client, PushStep(p, n, newIds, now, false).dev.client)
      && (d in p.store.devices ==> PushBatch(p.store, RecordsOf(p.dev.phase.queue[..n])).Some?)
  {
    RunInv(events);
    PlacedRun(events, d);
    var p := PairOf(Run(events), d);
    assert DeviceInv(Run(events), d) && StoreInv(Account(p.dev), p.store);
    PlacedPush(Account(p.dev), p, n, newIds, now, false);
    if d in p.store.devices { PushGoesThrough(Account(p.dev), p, n); }
  }

  // ---- agreement

  /** Nothing is left to do: the device is in step, its cursor is at the end, and all it holds is
      on the server. */
  ghost predicate Quiet(p: Pair) {
    var sync := p.dev.client.sync;
    && p.dev.phase.Idle? && InStep(sync.records, p.store.rows) && sync.serverSequence == |p.store.log|
    && Stamped(p.dev.client.vault) && PlacedNow(p.dev.client.vault, sync, []) && p.store.wrapped.Some?
  }

  /** The device remembers this very row, with its digest unless it is one of `unread`. */
  ghost predicate SameAsServer(records: map<RecordId, Meta>, row: Row, id: RecordId, unread: set<RecordId>) {
    && id in records && records[id].revision == row.revision && records[id].serverSequence == row.serverSequence
    && (records[id].hash == row.hash || (records[id].hash == NoHash && id in unread))
  }

  /** The server holds this payload, or a version that somebody wrote after the cursor. */
  ghost predicate OnServer(p: Pair, r: Plain) {
    var rows := p.store.rows;
    r.id in rows && (rows[r.id].hash == Hash(r) || p.dev.client.sync.serverSequence < rows[r.id].serverSequence)
  }

  /** Agreement between a device and its server up to the device's cursor. */
  ghost predicate Agrees(p: Pair, unread: set<RecordId>, t: pos) {
    var sync := p.dev.client.sync;
    && (forall id :: id in p.store.rows && p.store.rows[id].serverSequence <= sync.serverSequence
          ==> SameAsServer(sync.records, p.store.rows[id], id, unread))
    && (forall r :: r in Active(p.dev.client.vault, t) ==> OnServer(p, r))
    && (forall id :: id in sync.pendingDeletes ==> OnServer(p, sync.pendingDeletes[id]))
  }

  lemma KnownOnServer(account: string, p: Pair, r: Plain)
    requires StoreInv(account, p.store) && DevInv(account, p.dev, p.store) && p.dev.client.sync.accountId.Some?
    requires CursorSound(p.dev.client.sync, p.store.rows) && KnownHash(p.dev.client.sync.records, r.id) == Hash(r)
    ensures OnServer(p, r)
  {
    var records := p.dev.client.sync.records;
    assert Held(p.store.log, r.id, records[r.id]);
    CurrentRow(p.store, r.id, records[r.id]);
    assert Filed(p.store.log, p.store.rows[r.id], r.id);
    if p.store.rows[r.id].serverSequence <= p.dev.client.sync.serverSequence { assert Knows(records, p.store.rows[r.id], r.id); }
  }

  lemma KnownSame(account: string, p: Pair, id: RecordId, unread: set<RecordId>)
    requires StoreInv(account, p.store) && DevInv(account, p.dev, p.store) && p.dev.client.sync.accountId.Some?
    requires CursorSound(p.dev.client.sync, p.store.rows) && Unknown(p.dev.client.sync.records) <= unread
    requires id in p.store.rows && p.store.rows[id].serverSequence <= p.dev.client.sync.serverSequence
    ensures SameAsServer(p.dev.client.sync.records, p.store.rows[id], id, unread)
  {
    var records := p.dev.client.sync.records;
    assert Filed(p.store.log, p.store.rows[id], id);
    assert Knows(records, p.store.rows[id], id);
    CurrentRow(p.store, id, records[id]);
    assert records[id].hash == NoHash ==> id in Unknown(records);
  }

  lemma PlacedAgrees(account: string, p: Pair, unread: set<RecordId>, t: pos)
    requires StoreInv(account, p.store) && DevInv(account, p.dev, p.store) && p.dev.client.sync.accountId.Some?
    requires CursorSound(p.dev.client.sync, p.store.rows) && Unknown(p.dev.client.sync.records) <= unread
    requires Stamped(p.dev.client.vault) && PlacedNow(p.dev.client.vault, p.dev.client.sync, [])
    ensures Agrees(p, unread, t)
  {
    var sync := p.dev.client.sync;
    forall id | id in p.store.rows && p.store.rows[id].serverSequence <= sync.serverSequence
      ensures SameAsServer(sync.records, p.store.rows[id], id, unread)
    {
      KnownSame(account, p, id, unread);
    }
    forall r | r in Active(p.dev.client.vault, t) ensures OnServer(p, r) {
      KnownAtAnyTime(p.dev.client.vault, sync, t, r);
      KnownOnServer(account, p, r);
    }
    var at: pos :| AllPlaced(Active(p.dev.client.vault, at), sync, []);
    forall id | id in sync.pendingDeletes ensures OnServer(p, sync.pendingDeletes[id]) {
      assert Tombstone(id, sync.pendingDeletes[id]) && Placed(sync.records, [], sync.pendingDeletes[id]);
      KnownOnServer(account, p, sync.pendingDeletes[id]);
    }
  }

  lemma FinishPlaced(vault: Vault, a: Sync, b: Sync)
    requires PlacedNow(vault, a, []) && a.records == b.records && a.pendingDeletes == b.pendingDeletes
    ensures PlacedNow(vault, b, [])
  {
    var at: pos :| AllPlaced(Active(vault, at), a, []);
    assert AllPlaced(Active(vault, at), b, []);
  }

  /** A proper device that ends a sync on firm ground. */
  lemma FinishAgrees(account: string, q: Pair, t: pos)
    requires StoreInv(account, q.store) && DevInv(account, q.dev, q.store) && Account(q.dev) == account && EditsInv(q.dev, q.store.rows)
    requires q.dev.phase.Pushing? && q.dev.phase.queue == [] && GapInv(q) && ProperInv(q.dev) && PlacedInv(q)
    ensures var f := Pair(FinishStep(q.dev), q.store); var past := q.dev.phase.pull.past;
      && CursorSound(f.dev.client.sync, f.store.rows) && Agrees(f, past.blank + past.unread, t)
      && (f.dev.client.sync.serverSequence == |f.store.log| ==> Quiet(f))
  {
    var f := Pair(FinishStep(q.dev), q.store);
    var past := q.dev.phase.pull.past;
    FinishPlaced(q.dev.client.vault, q.dev.client.sync, f.dev.client.sync);
    assert DevInv(account, f.dev, f.store);
    PlacedAgrees(account, f, past.blank + past.unread, t);
    if f.dev.client.sync.serverSequence == |f.store.log| { JoinCaught(f.store, f.dev.client.sync.records, |f.store.log|); }
  }

  // ---- digests do not depend on the clock

  lemma {:induction false} PasskeyHashes(passkeys: seq<Passkey>, a: pos, b: pos, r: Plain)
    requires r in PasskeyRecords(passkeys, a) && forall q :: q in passkeys && HasRecord(q) ==> q.createdAt.Some?
    ensures r in PasskeyRecords(passkeys, b)
  {
    var rest := passkeys[1..];
    assert passkeys[0] in passkeys && forall q :: q in rest ==> q in passkeys;
    if HasRecord(passkeys[0]) && r == RecordOfPasskey(passkeys[0], a) {
      assert PasskeyRecords(passkeys, b)[0] == r;
    } else {
      PasskeyHashes(rest, a, b, r);
    }
  }

  lemma SameHashes(vault: Vault, a: pos, b: pos, r: Plain) returns (r': Plain)
    requires Stamped(vault) && r in Active(vault, a)
    ensures r' in Active(vault, b) && Hash(r') == Hash(r) && r'.id == r.id
  {
    var items := ItemRecords(vault.items, a);
    if r in items {
      var i :| 0 <= i < |items| && items[i] == r;
      r' := ItemRecords(vault.items, b)[i];
    } else if r in PasskeyRecords(vault.sitePasskeys, a) {
      PasskeyHashes(vault.sitePasskeys, a, b, r);
      r' := r;
    } else {
      r' := SettingsRecordOf(vault, b);
      assert Active(vault, b)[|Active(vault, b)| - 1] == r';
    }
  }

  lemma KnownAtAnyTime(vault: Vault, sync: Sync, t: pos, r: Plain)
    requires Stamped(vault) && PlacedNow(vault, sync, []) && r in Active(vault, t)
    ensures KnownHash(sync.records, r.id) == Hash(r)
  {
    var at: pos :| AllPlaced(Active(vault, at), sync, []);
    var r' := SameHashes(vault, t, at, r);
    assert Placed(sync.records, [], r');
  }

  // ---- the second sync

  lemma {:induction false} NothingToBuild(key: VaultKey, account: string, deviceId: string, records: map<RecordId, Meta>, list: seq<Plain>)
    requires forall p :: p in list ==> KnownHash(records, p.id) == Hash(p)
    ensures var b := Build(key, account, deviceId, records, list); b.queue == [] && SameVersions(records, b.records)
  {
    if list != [] {
      NothingToBuild(key, account, deviceId, records, list[..|list| - 1]);
      var p := list[|list| - 1];
      var b := Build(key, account, deviceId, records, list[..|list| - 1]);
      assert p in list && KnownHash(records, p.id) == Hash(p);
      assert SameVersion(records[p.id], b.records[p.id]);
    }
  }

  lemma {:induction false} NothingMissing(known: set<RecordId>, order: seq<RecordId>, records: map<RecordId, Meta>, now: pos)
    requires forall id :: id in order && id in records && id !in known ==> records[id].deletedAt.Some?
    ensures MissingRecords(known, order, records, now) == []
  {
    if order != [] { NothingMissing(known, order[1..], records, now); }
  }

  lemma QuietList(f: Pair, pendingOrder: seq<RecordId>, recordOrder: seq<RecordId>, now: pos, p: Plain)
    requires Quiet(f)
    requires var sync := f.dev.client.sync; Enumerates(pendingOrder, sync.pendingDeletes.Keys)
    requires forall id :: id in pendingOrder ==> id in f.dev.client.sync.pendingDeletes
    requires p in PushList(f.dev.client.vault, f.dev.client.sync, pendingOrder, recordOrder, now)
    ensures KnownHash(f.dev.client.sync.records, p.id) == Hash(p)
  {
    var vault, sync := f.dev.client.vault, f.dev.client.sync;
    var active, pending := Active(vault, now), Pending(pendingOrder, sync.pendingDeletes);
    var at: pos :| AllPlaced(Active(vault, at), sync, []);
    if p in active {
      KnownAtAnyTime(vault, sync, now, p);
    } else if p in pending {
      var i :| 0 <= i < |pending| && pending[i] == p;
      assert pendingOrder[i] in pendingOrder;
      assert Tombstone(pendingOrder[i], p) && Placed(sync.records, [], p);
    } else {
      forall id | id in sync.records && id !in Ids(active + pending) ensures sync.records[id].deletedAt.Some? {
        QuietId(vault, sync, at, now, pendingOrder, id);
      }
      NothingMissing(Ids(active + pending), recordOrder, sync.records, now);
    }
  }

  lemma QuietId(vault: Vault, sync: Sync, at: pos, now: pos, pendingOrder: seq<RecordId>, id: RecordId)
    requires Stamped(vault) && AllPlaced(Active(vault, at), sync, []) && Enumerates(pendingOrder, sync.pendingDeletes.Keys)
    requires forall id :: id in pendingOrder ==> id in sync.pendingDeletes
    requires id in sync.records
    ensures sync.records[id].deletedAt.Some? || id in Ids(Active(vault, now) + Pending(pendingOrder, sync.pendingDeletes))
  {
    assert Accounted(Active(vault, at), sync, [], id);
    var all := Active(vault, now) + Pending(pendingOrder, sync.pendingDeletes);
    if id in Ids(Active(vault, at)) {
      var r :| r in Active(vault, at) && r.id == id;
      var r' := SameHashes(vault, at, now, r);
      assert r' in all;
    } else if id in sync.pendingDeletes {
      assert id in Elements(pendingOrder);
      var i :| 0 <= i < |pendingOrder| && pendingOrder[i] == id;
      assert all[|Active(vault, now)| + i] == sync.pendingDeletes[id] && Tombstone(id, sync.pendingDeletes[id]);
      assert sync.pendingDeletes[id] in all;
    }
  }

  lemma InStepNotEmpty(s: Store, records: map<RecordId, Meta>)
    requires Ledger(s) && InStep(records, s.rows) && |s.log| > 0
    ensures records != map[]
  {
    var id := s.log[0].id;
    assert Covered(s.rows, s.log[0]);
    assert Knows(records, s.rows[id], id);
  }

  lemma QuietStart(account: string, f: Pair, now: pos)
    requires Quiet(f) && Ledger(f.store) && f.dev.client.sync.accountId == Some(account)
    ensures var d := StartSync(f.dev, account, false, now);
      && d.client == f.dev.client && d.phase.Pulling? && d.phase.knownKey.None?
      && d.phase.next == d.phase.pull.since == d.phase.pull.sequence == |f.store.log|
  {
    if |f.store.log| > 0 { InStepNotEmpty(f.store, f.dev.client.sync.records); }
  }

  lemma QuietPull(account: string, f: Pair, d: Dev, newIds: seq<string>, t: pos)
    requires Quiet(f) && Ledger(f.store) && Unused(newIds, f)
    requires d.client == f.dev.client && d.phase.Pulling? && d.phase.knownKey.None?
    requires d.phase.next == d.phase.pull.sequence == |f.store.log|
    ensures var q := QueryPage(Pair(d, f.store), newIds, t);
      && q.store == f.store && q.dev.client == f.dev.client
      && q.dev.phase.Pulled? && q.dev.phase.pull.sequence == |f.store.log|
  {
    assert PullSince(f.store, |f.store.log|, PULL_BATCH_LIMIT).rows == [];
  }

  lemma PlacedSame(vault: Vault, a: Sync, b: Sync)
    requires PlacedNow(vault, a, []) && SameVersions(a.records, b.records) && a.pendingDeletes == b.pendingDeletes
    ensures PlacedNow(vault, b, [])
  {
    var at: pos :| AllPlaced(Active(vault, at), a, []);
    forall id ensures KnownHash(b.records, id) == KnownHash(a.records, id) {
      assert id in a.records ==> SameVersion(a.records[id], b.records[id]);
    }
    forall p: Plain | Placed(a.records, [], p) ensures Placed(b.records, [], p) { }
    forall id | id in b.records ensures Accounted(Active(vault, at), b, [], id) {
      assert SameVersion(a.records[id], b.records[id]) && Accounted(Active(vault, at), a, [], id);
    }
    assert AllPlaced(Active(vault, at), b, []);
  }

  lemma StaysQuiet(f: Pair, d: Dev)
    requires Quiet(f) && d.phase.Pushing? && d.phase.queue == [] && d.client.vault == f.dev.client.vault
    requires SameVersions(f.dev.client.sync.records, d.client.sync.records) && d.client.sync.pendingDeletes == f.dev.client.sync.pendingDeletes
    requires FinishStep(d).client.sync.serverSequence == f.dev.client.sync.serverSequence
    ensures Quiet(Pair(FinishStep(d), f.store))
  {
    InStepSame(f.dev.client.sync.records, d.client.sync.records, f.store.rows);
    PlacedSame(f.dev.client.vault, f.dev.client.sync, FinishStep(d).client.sync);
  }

  /** Quiescence. When the device is quiet, another sync without edits pulls nothing, queues nothing,
      leaves the server, the vault, the remembered versions and the cursor as they are, and the
      device quiet. */
  lemma SecondSyncIsIdle(account: string, f: Pair, now: pos, newIds: seq<string>, t: pos, pendingOrder: seq<RecordId>, recordOrder: seq<RecordId>, t': pos)
    requires Quiet(f) && DevInv(account, f.dev, f.store) && StoreInv(account, f.store) && f.dev.client.sync.accountId == Some(account)
    requires Unused(newIds, f)
    requires Enumerates(pendingOrder, f.dev.client.sync.pendingDeletes.Keys) && Enumerates(recordOrder, f.dev.client.sync.records.Keys)
    ensures var q := QueryPage(Pair(StartSync(f.dev, account, false, now), f.store), newIds, t);
      var d := BuildStep(q.dev, pendingOrder, recordOrder, t');
      && q.store == f.store && q.dev.client == f.dev.client
      && d.phase.Pushing? && d.phase.queue == [] && d.client.vault == f.dev.client.vault
      && SameVersions(f.dev.client.sync.records, d.client.sync.records)
      && FinishStep(d).client.sync.serverSequence == f.dev.client.sync.serverSequence
      && Quiet(Pair(FinishStep(d), f.store))
  {
    QuietStart(account, f, now);
    var d := StartSync(f.dev, account, false, now);
    QuietPull(account, f, d, newIds, t);
    var q := QueryPage(Pair(d, f.store), newIds, t);
    QuietBuild(account, f, q, pendingOrder, recordOrder, t');
    StaysQuiet(f, BuildStep(q.dev, pendingOrder, recordOrder, t'));
  }

  lemma QuietBuild(account: string, f: Pair, q: Pair, pendingOrder: seq<RecordId>, recordOrder: seq<RecordId>, now: pos)
    requires Quiet(f) && f.dev.client.sync.accountId == Some(account)
    requires Enumerates(pendingOrder, f.dev.client.sync.pendingDeletes.Keys) && Enumerates(recordOrder, f.dev.client.sync.records.Keys)
    requires q.store == f.store && q.dev.client == f.dev.client && q.dev.phase.Pulled? && q.dev.phase.pull.sequence == |f.store.log|
    ensures var d := BuildStep(q.dev, pendingOrder, recordOrder, now);
      && d.phase.Pushing? && d.phase.queue == [] && d.client.vault == f.dev.client.vault
      && SameVersions(f.dev.client.sync.records, d.client.sync.records) && d.client.sync.pendingDeletes == f.dev.client.sync.pendingDeletes
      && FinishStep(d).client.sync.serverSequence == f.dev.client.sync.serverSequence
  {
    var sync := f.dev.client.sync;
    assert forall id :: id in pendingOrder ==> id in Elements(pendingOrder);
    var list := PushList(f.dev.client.vault, sync, pendingOrder, recordOrder, now);
    forall p | p in list ensures KnownHash(sync.records, p.id) == Hash(p) {
      QuietList(f, pendingOrder, recordOrder, now, p);
    }
    NothingToBuild(q.dev.phase.key, account, f.dev.client.deviceId, sync.records, list);
  }
}
