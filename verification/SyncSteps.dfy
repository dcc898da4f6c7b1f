/** Every step of a device keeps the invariant of its own account and only extends the store. */
module SyncSteps {
  import opened Common
  import opened SyncTypes
  import opened SyncServer
  import opened SyncServerFacts
  import opened SyncClient
  import opened SyncProtocol
  import opened SyncInvariant

  /** The parts of a device that no step of a running sync changes. */
  ghost predicate SameSession(a: Client, b: Client) {
    a.deviceId == b.deviceId && a.sync.accountId == b.sync.accountId && a.sync.serverSequence == b.sync.serverSequence
  }

  // ---- start

  lemma StartKeeps(dev: Dev, account: string, full: bool, now: pos, s: Store)
    requires dev.client.sync.accountId == Some(account) ==> DevInv(account, dev, s)
    requires dev.phase.Idle?
    ensures DevInv(account, StartSync(dev, account, full, now), s)
  {
    var d := StartSync(dev, account, full, now);
    var pull := d.phase.pull;
    assert Caught(d.client.sync.records, s.rows, pull.since, pull.since);
  }

  // ---- pulling

  lemma AbsorbLearns(account: string, p: Pair, pull: Pull, key: VaultKey, page: Page, next: nat, pages: nat, newIds: seq<string>, now: pos)
    requires Ledger(p.store) && |page.rows| <= |newIds| && AllHeld(p.dev.client.sync.records, p.store.log) && Account(p.dev) == account
    requires PageOf(p.store, next + 1, PULL_BATCH_LIMIT, page.rows)
    requires Caught(p.dev.client.sync.records, p.store.rows, pull.since, next)
    ensures var c := Absorb(p, pull, key, page, next, pages, newIds, now).dev.client; var end := PageEnd(next, page.rows);
      && AllHeld(c.sync.records, p.store.log) && SameSession(p.dev.client, c)
      && Caught(c.sync.records, p.store.rows, pull.since, end)
      && (|page.rows| < PULL_BATCH_LIMIT ==> Caught(c.sync.records, p.store.rows, pull.since, |p.store.log|))
      && (page.rows != [] ==> next < end <= |p.store.log|)
  {
    var w := WorkOn(p.dev.client, pull);
    forall k | 0 <= k < |page.rows| ensures Current(p.store, page.rows[k]) { assert Listed(p.store, next + 1, page.rows[k]); }
    PullRowsHeld(p.store, w, key, account, pull.dirty, page.rows, newIds, now);
    PullRowsFrame(w, key, account, pull.dirty, page.rows, newIds, now);
    var after := PullRows(w, key, account, pull.dirty, page.rows, newIds, now).client.sync.records;
    PageCatches(p.store, p.dev.client.sync.records, after, pull.since, next, page.rows);
  }

  lemma AbsorbKeeps(account: string, p: Pair, pull: Pull, key: VaultKey, page: Page, next: nat, pages: nat, newIds: seq<string>, now: pos)
    requires Ledger(p.store) && HasKey(account, key, p.store) && |page.rows| <= |newIds|
    requires p.dev.client.sync.accountId == Some(account) && AllHeld(p.dev.client.sync.records, p.store.log)
    requires p.dev.client.sync.serverSequence <= |p.store.log|
    requires PageOf(p.store, next + 1, PULL_BATCH_LIMIT, page.rows)
    requires Caught(p.dev.client.sync.records, p.store.rows, pull.since, next)
    requires pull.since <= next <= |p.store.log| && pull.since <= pull.sequence == |p.store.log| && pages < MAX_PULL_PAGES
    ensures var q := Absorb(p, pull, key, page, next, pages, newIds, now);
      && q.store == p.store && DevInv(account, q.dev, q.store) && SameSession(p.dev.client, q.dev.client)
      && (q.dev.phase.Pulled? ==> q.dev.phase.pull.sequence == |q.store.log|)
      && (|page.rows| == PULL_BATCH_LIMIT && pages + 1 < MAX_PULL_PAGES ==> q.dev.phase.Pulling?)
      && (|page.rows| < PULL_BATCH_LIMIT ==> q.dev.phase.Pulled?)
  {
    AbsorbLearns(account, p, pull, key, page, next, pages, newIds, now);
    var q := Absorb(p, pull, key, page, next, pages, newIds, now);
    assert q.dev.client.sync.accountId.Some?;
    assert PhaseInv(account, q.dev, q.store);
  }

  lemma PageKeeps(account: string, p: Pair, key: VaultKey, newIds: seq<string>, now: pos)
    requires Ledger(p.store) && DevInv(account, p.dev, p.store) && p.dev.client.sync.accountId == Some(account)
    requires p.dev.phase.Pulling? && HasKey(account, key, p.store)
    requires |PullSince(p.store, p.dev.phase.next, PULL_BATCH_LIMIT).rows| <= |newIds|
    ensures var ph := p.dev.phase; var page := PullSince(p.store, ph.next, PULL_BATCH_LIMIT);
      var q := Absorb(p, ph.pull.(sequence := Max(ph.pull.sequence, page.sequence)), key, page, ph.next, ph.pages, newIds, now);
      && q.store == p.store && DevInv(account, q.dev, q.store) && SameSession(p.dev.client, q.dev.client)
      && (q.dev.phase.Pulled? ==> q.dev.phase.pull.sequence == |q.store.log|)
      && (|page.rows| == PULL_BATCH_LIMIT && ph.pages + 1 < MAX_PULL_PAGES ==> q.dev.phase.Pulling?)
      && (|page.rows| < PULL_BATCH_LIMIT ==> q.dev.phase.Pulled?)
  {
    var ph := p.dev.phase;
    var page := PullSince(p.store, ph.next, PULL_BATCH_LIMIT);
    ScanIsPage(p.store, ph.next + 1, PULL_BATCH_LIMIT);
    AbsorbKeeps(account, p, ph.pull.(sequence := Max(ph.pull.sequence, page.sequence)), key, page, ph.next, ph.pages, newIds, now);
  }

  lemma QueryKeeps(account: string, p: Pair, newIds: seq<string>, now: pos)
    requires StoreInv(account, p.store) && DevInv(account, p.dev, p.store)
    requires p.dev.phase.Idle? || p.dev.client.sync.accountId == Some(account)
    ensures var q := QueryPage(p, newIds, now);
      && q.store == p.store && DevInv(account, q.dev, q.store) && SameSession(p.dev.client, q.dev.client)
      && (p.dev.phase.Pulling? && q.dev.phase.Pulled? ==> q.dev.phase.pull.sequence == |q.store.log|)
  {
    var ph := p.dev.phase;
    if ph.Pulling? && Unused(newIds, p) {
      var page := PullSince(p.store, ph.next, PULL_BATCH_LIMIT);
      if |page.rows| <= |newIds| {
        if ph.knownKey.Some? {
          PageKeeps(account, p, ph.knownKey.value, newIds, now);
        } else if page.wrapped.Some? {
          PageKeeps(account, p, page.wrapped.value.key, newIds, now);
        } else {
          ScanIsPage(p.store, ph.next + 1, PULL_BATCH_LIMIT);
          NoKeyNoRows(account, p.store, ph.next + 1, page.rows);
        }
      }
    }
  }

  /** Nothing was ever pushed to a vault without a key. */
  lemma NoKeyNoRows(account: string, s: Store, n: nat, rows: seq<Row>)
    requires StoreInv(account, s) && s.wrapped.None? && PageOf(s, n, PULL_BATCH_LIMIT, rows)
    ensures s.log == [] && rows == []
  {
    forall id | id in s.rows ensures 1 <= |s.log| { assert Filed(s.log, s.rows[id], id); }
    if rows != [] { assert Listed(s, n, rows[0]); }
    assert s.log != [] ==> SealedFor(account, s.wrapped, s.log[0]);
  }

  lemma BootstrapKeeps(account: string, p: Pair, candidate: VaultKey, newIds: seq<string>, now: pos, lost: bool)
    requires StoreInv(account, p.store) && DevInv(account, p.dev, p.store)
    requires p.dev.phase.Idle? || p.dev.client.sync.accountId == Some(account)
    ensures var q := BootstrapStep(p, candidate, newIds, now, lost);
      StoreInv(account, q.store) && Extends(p.store, q.store) && DevInv(account, q.dev, q.store) && SameSession(p.dev.client, q.dev.client)
  {
    var ph := p.dev.phase;
    if ph.AwaitingKey? && Unused(newIds, p) && |ph.page.rows| <= |newIds| {
      var offered := if ph.candidate.None? then None else Some(Wrapped(Account(p.dev), ph.candidate.value));
      var t := Bootstrap(p.store, offered);
      BootstrapFacts(p.store, offered);
      BootstrapSeals(account, p.store, offered);
      DevInvGrows(account, p.dev, p.store, t);
      if !lost && t.wrapped.Some? {
        assert Absorb(p.(store := t), ph.pull, t.wrapped.value.key, ph.page, ph.pull.since, 0, newIds, now).dev.client == p.dev.client;
      }
    }
  }

  lemma BootstrapSeals(account: string, s: Store, offered: Option<Wrapped>)
    requires StoreInv(account, s) && (offered.Some? ==> offered.value.account == account)
    ensures StoreInv(account, Bootstrap(s, offered))
    ensures Bootstrap(s, offered).bootstrapped
  {
    var t := Bootstrap(s, offered);
    BootstrapFacts(s, offered);
    forall i | 0 <= i < |t.log| ensures SealedFor(account, t.wrapped, t.log[i]) {
      assert SealedFor(account, s.wrapped, s.log[i]);
    }
  }

  // ---- building the queue

  lemma {:induction false} BuildKeeps(key: VaultKey, account: string, deviceId: string, records: map<RecordId, Meta>, list: seq<Plain>, log: seq<Row>)
    requires AllHeld(records, log)
    ensures var b := Build(key, account, deviceId, records, list);
      && AllHeld(b.records, log)
      && SameVersions(records, b.records)
      && forall k :: 0 <= k < |b.queue| ==> QueuedOk(account, key, deviceId, log, b.queue[k])
  {
    if list != [] {
      BuildKeeps(key, account, deviceId, records, list[..|list| - 1], log);
      var b := Build(key, account, deviceId, records, list[..|list| - 1]);
      var p := list[|list| - 1];
      if p.id in b.records { assert Held(log, p.id, b.records[p.id]); }
      var c := Build(key, account, deviceId, records, list);
      assert AllHeld(c.records, log);
    }
  }

  /** Only the item identifiers beside the versions differ. */
  ghost predicate SameVersions(a: map<RecordId, Meta>, b: map<RecordId, Meta>) {
    && a.Keys == b.Keys
    && forall id :: id in a ==> SameVersion(a[id], b[id])
  }

  ghost predicate SameVersion(m: Meta, n: Meta) {
    m.revision == n.revision && m.hash == n.hash && m.serverSequence == n.serverSequence && m.deletedAt == n.deletedAt
  }

  lemma {:induction false} BuildVersions(key: VaultKey, account: string, deviceId: string, records: map<RecordId, Meta>, list: seq<Plain>)
    ensures SameVersions(records, Build(key, account, deviceId, records, list).records)
  {
    if list != [] { BuildVersions(key, account, deviceId, records, list[..|list| - 1]); }
  }

  lemma CaughtSame(a: map<RecordId, Meta>, b: map<RecordId, Meta>, rows: map<RecordId, Row>, lo: nat, hi: nat)
    requires SameVersions(a, b) && Caught(a, rows, lo, hi)
    ensures Caught(b, rows, lo, hi)
  {
    forall id | id in rows && lo < rows[id].serverSequence <= hi ensures Knows(b, rows[id], id) {
      assert Knows(a, rows[id], id) && SameVersion(a[id], b[id]);
    }
  }

  lemma BuildStepKeeps(account: string, dev: Dev, pendingOrder: seq<RecordId>, recordOrder: seq<RecordId>, now: pos, s: Store)
    requires DevInv(account, dev, s)
    requires dev.phase.Idle? || dev.client.sync.accountId == Some(account)
    ensures DevInv(account, BuildStep(dev, pendingOrder, recordOrder, now), s)
    ensures SameSession(dev.client, BuildStep(dev, pendingOrder, recordOrder, now).client)
  {
    var ph := dev.phase;
    var sync := dev.client.sync;
    if ph.Pulled? && Enumerates(pendingOrder, sync.pendingDeletes.Keys) && Enumerates(recordOrder, sync.records.Keys) {
      assert forall id :: id in pendingOrder ==> id in Elements(pendingOrder);
      var list := PushList(dev.client.vault, sync, pendingOrder, recordOrder, now);
      BuildKeeps(ph.key, account, dev.client.deviceId, sync.records, list, s.log);
      CaughtSame(sync.records, Build(ph.key, account, dev.client.deviceId, sync.records, list).records, s.rows, ph.pull.since, ph.pull.sequence);
    }
  }

  // ---- pushing

  lemma PushSeals(account: string, key: VaultKey, deviceId: string, s: Store, queue: seq<Queued>)
    requires StoreInv(account, s) && HasKey(account, key, s)
    requires forall k :: 0 <= k < |queue| ==> QueuedOk(account, key, deviceId, s.log, queue[k])
    requires PushBatch(s, RecordsOf(queue)).Some?
    ensures StoreInv(account, PushBatch(s, RecordsOf(queue)).value.store)
  {
    var batch := RecordsOf(queue);
    PushKeepsLedger(s, batch);
    var t := PushBatch(s, batch).value.store;
    forall i | 0 <= i < |t.log| ensures SealedFor(account, t.wrapped, t.log[i]) {
      if i < |s.log| {
        PrefixEntry(s.log, t.log, i);
        assert SealedFor(account, s.wrapped, s.log[i]);
      } else {
        var k := PushLogs(s, batch, i);
        assert QueuedOk(account, key, deviceId, s.log, queue[k]);
      }
    }
  }

  ghost predicate Acknowledged(t: Store, a: Accepted) {
    a.id in t.rows && a == Acknowledge(t.rows[a.id])
  }

  ghost predicate KnowsRow(t: Store, records: map<RecordId, Meta>, id: RecordId) {
    id in t.rows && Knows(records, t.rows[id], id)
  }

  /** Whatever of the table was known stays known. */
  ghost predicate KeepsKnown(t: Store, a: map<RecordId, Meta>, b: map<RecordId, Meta>) {
    forall id :: KnowsRow(t, a, id) ==> KnowsRow(t, b, id)
  }

  lemma KeepsTransitive(t: Store, a: map<RecordId, Meta>, b: map<RecordId, Meta>, c: map<RecordId, Meta>)
    requires KeepsKnown(t, a, b) && KeepsKnown(t, b, c)
    ensures KeepsKnown(t, a, c)
  {
  }

  lemma NotesKeeps(t: Store, a: map<RecordId, Meta>, b: map<RecordId, Meta>, row: Row)
    requires Notes(a, b, row) && Current(t, row)
    ensures KeepsKnown(t, a, b) && KnowsRow(t, b, row.id)
  {
  }

  lemma AcceptOne(t: Store, sync: Sync, plainById: map<RecordId, Plain>, a: Accepted)
    requires Ledger(t) && AllHeld(sync.records, t.log) && Acknowledged(t, a)
    ensures var u := TakeAccepted(sync, plainById, a);
      && AllHeld(u.records, t.log) && u.accountId == sync.accountId && u.serverSequence == sync.serverSequence
      && KeepsKnown(t, sync.records, u.records) && KnowsRow(t, u.records, a.id)
  {
    LedgerNamed(t);
    var u := TakeAccepted(sync, plainById, a);
    assert Notes(sync.records, u.records, t.rows[a.id]);
    NotesHeld(t, sync.records, u.records, t.rows[a.id]);
    NotesKeeps(t, sync.records, u.records, t.rows[a.id]);
  }

  lemma {:induction false} AcceptedHeld(t: Store, sync: Sync, plainById: map<RecordId, Plain>, accepted: seq<Accepted>)
    requires Ledger(t) && AllHeld(sync.records, t.log)
    requires forall k :: 0 <= k < |accepted| ==> Acknowledged(t, accepted[k])
    ensures var u := TakeAllAccepted(sync, plainById, accepted);
      && AllHeld(u.records, t.log) && u.accountId == sync.accountId && u.serverSequence == sync.serverSequence
      && KeepsKnown(t, sync.records, u.records)
  {
    if accepted != [] {
      var init, a := accepted[..|accepted| - 1], accepted[|accepted| - 1];
      AcceptedHeld(t, sync, plainById, init);
      assert Acknowledged(t, a);
      var mid := TakeAllAccepted(sync, plainById, init);
      AcceptOne(t, mid, plainById, a);
      KeepsTransitive(t, sync.records, mid.records, TakeAccepted(mid, plainById, a).records);
    }
  }

  lemma RefusedEditFrame(w: Work, key: VaultKey, account: string, local: Option<Plain>, row: Row, newId: string, now: pos)
    ensures var r := RefusedEdit(w, key, account, local, row, newId, now).client;
      && SameSession(w.client, r)
      && (r.sync.records == w.client.sync.records || Notes(w.client.sync.records, r.sync.records, row))
  {
  }

  lemma TakeConflictFrame(w: Work, key: VaultKey, account: string, plainById: map<RecordId, Plain>, row: Row, newId: string, now: pos)
    ensures var r := TakeConflict(w, key, account, plainById, row, newId, now).client;
      && SameSession(w.client, r)
      && (r.sync.records == w.client.sync.records || Notes(w.client.sync.records, r.sync.records, row))
  {
    var local := if row.id in plainById then Some(plainById[row.id]) else None;
    RefusedEditFrame(w, key, account, local, row, newId, now);
  }

  lemma {:induction false} ConflictsHeld(t: Store, w: Work, key: VaultKey, account: string, plainById: map<RecordId, Plain>, rows: seq<Row>, newIds: seq<string>, now: pos)
    requires Ledger(t) && AllHeld(w.client.sync.records, t.log) && AllCurrent(t, rows) && |rows| <= |newIds|
    ensures var r := TakeConflicts(w, key, account, plainById, rows, newIds, now).client;
      && AllHeld(r.sync.records, t.log) && SameSession(w.client, r)
      && KeepsKnown(t, w.client.sync.records, r.sync.records)
  {
    if rows != [] {
      var n := |rows| - 1;
      ConflictsHeld(t, w, key, account, plainById, rows[..n], newIds, now);
      var mid := TakeConflicts(w, key, account, plainById, rows[..n], newIds, now);
      TakeConflictFrame(mid, key, account, plainById, rows[n], newIds[n], now);
      var r := TakeConflict(mid, key, account, plainById, rows[n], newIds[n], now).client.sync.records;
      assert Current(t, rows[n]);
      if r != mid.client.sync.records {
        NotesHeld(t, mid.client.sync.records, r, rows[n]);
        NotesKeeps(t, mid.client.sync.records, r, rows[n]);
      }
      KeepsTransitive(t, w.client.sync.records, mid.client.sync.records, r);
    }
  }

  lemma OutcomeHeld(s: Store, batch: seq<Encrypted>, w: Work, key: VaultKey, account: string, plainById: map<RecordId, Plain>, newIds: seq<string>, now: pos)
    requires Ledger(s) && PushBatch(s, batch).Some? && AllHeld(w.client.sync.records, s.log) && |batch| <= |newIds|
    ensures var o := PushBatch(s, batch).value;
      && AllHeld(TakeOutcome(w, key, account, plainById, o, newIds, now).client.sync.records, o.store.log)
      && SameSession(w.client, TakeOutcome(w, key, account, plainById, o, newIds, now).client)
      && KeepsKnown(o.store, w.client.sync.records, TakeOutcome(w, key, account, plainById, o, newIds, now).client.sync.records)
  {
    var o := PushBatch(s, batch).value;
    PushKeepsLedger(s, batch);
    LedgerNamed(s);
    AllHeldGrows(w.client.sync.records, s, o.store);
    forall k | 0 <= k < |o.accepted| ensures Acknowledged(o.store, o.accepted[k]) {
      var i := PushAccepts(s, batch, o.accepted[k]);
    }
    forall k | 0 <= k < |o.conflicts| ensures Current(o.store, o.conflicts[k]) {
      var i := PushRefuses(s, batch, o.conflicts[k]);
    }
    AcceptedHeld(o.store, w.client.sync, plainById, o.accepted);
    var mid := w.(client := w.client.(sync := TakeAllAccepted(w.client.sync, plainById, o.accepted)));
    ConflictsHeld(o.store, mid, key, account, plainById, o.conflicts, newIds, now);
    KeepsTransitive(o.store, w.client.sync.records, mid.client.sync.records,
                    TakeConflicts(mid, key, account, plainById, o.conflicts, newIds, now).client.sync.records);
  }

  lemma CaughtKnown(t: Store, a: map<RecordId, Meta>, b: map<RecordId, Meta>, lo: nat, hi: nat)
    requires Caught(a, t.rows, lo, hi) && KeepsKnown(t, a, b)
    ensures Caught(b, t.rows, lo, hi)
  {
    forall id | id in t.rows && lo < t.rows[id].serverSequence <= hi ensures Knows(b, t.rows[id], id) {
      assert KnowsRow(t, a, id);
      assert KnowsRow(t, b, id);
    }
  }

  lemma PushKeeps(account: string, p: Pair, n: nat, newIds: seq<string>, now: pos, lost: bool)
    requires StoreInv(account, p.store) && DevInv(account, p.dev, p.store)
    requires p.dev.phase.Idle? || p.dev.client.sync.accountId == Some(account)
    ensures var q := PushStep(p, n, newIds, now, lost);
      StoreInv(account, q.store) && Extends(p.store, q.store) && DevInv(account, q.dev, q.store) && SameSession(p.dev.client, q.dev.client)
  {
    var ph := p.dev.phase;
    if ph.Pushing? && n <= |ph.queue| && n != 0 && Unused(newIds, p) && n <= |newIds| {
      var batch := RecordsOf(ph.queue[..n]);
      if PushBatch(p.store, batch).Some? {
        var t := PushBatch(p.store, batch).value.store;
        PushSeals(account, ph.key, p.dev.client.deviceId, p.store, ph.queue[..n]);
        PushKeepsLedger(p.store, batch);
        AllHeldGrows(p.dev.client.sync.records, p.store, t);
        QueueGrows(account, ph.key, p.dev.client.deviceId, p.store, t, ph.queue);
        CaughtGrows(p.dev.client.sync.records, p.store, t, ph.pull.since, ph.pull.sequence);
        var w := WorkOn(p.dev.client, ph.pull);
        OutcomeHeld(p.store, batch, w, ph.key, account, ph.plainById, newIds, now);
        CaughtKnown(t, p.dev.client.sync.records,
                    TakeOutcome(w, ph.key, account, ph.plainById, PushBatch(p.store, batch).value, newIds, now).client.sync.records,
                    ph.pull.since, ph.pull.sequence);
      }
    }
  }

  // ---- every action

  lemma RegisterKeeps(account: string, p: Pair)
    requires StoreInv(account, p.store) && DevInv(account, p.dev, p.store)
    ensures StoreInv(account, Register(p.store, p.dev.client.deviceId)) && Extends(p.store, Register(p.store, p.dev.client.deviceId))
    ensures DevInv(account, p.dev, Register(p.store, p.dev.client.deviceId))
  {
    RegisterFacts(p.store, p.dev.client.deviceId);
    DevInvGrows(account, p.dev, p.store, Register(p.store, p.dev.client.deviceId));
  }

  lemma ElseKeeps(account: string, p: Pair, act: Action)
    requires StoreInv(account, p.store) && DevInv(account, p.dev, p.store) && (act.Edit? || act.RegisterDevice? || act.Finish? || act.Abort?)
    ensures var q := Act(p, act);
      && StoreInv(account, q.store) && Extends(p.store, q.store) && DevInv(account, q.dev, q.store)
      && q.dev.client.deviceId == p.dev.client.deviceId && q.dev.client.sync.accountId == p.dev.client.sync.accountId
  {
    if act.RegisterDevice? { RegisterKeeps(account, p); }
  }

  /** One step of one device, against the store of its account. */
  lemma ActKeeps(account: string, p: Pair, act: Action)
    requires StoreInv(account, p.store)
    requires if act.Start? then act.account == account && (p.dev.client.sync.accountId == Some(account) ==> DevInv(account, p.dev, p.store))
             else Account(p.dev) == account && DevInv(account, p.dev, p.store)
    requires act.Start? ==> p.dev.phase.Idle?
    ensures var q := Act(p, act);
      && StoreInv(account, q.store) && Extends(p.store, q.store) && DevInv(account, q.dev, q.store)
      && q.dev.client.deviceId == p.dev.client.deviceId
      && (act.Start? ==> q.dev.client.sync.accountId == Some(account))
      && (!act.Start? ==> q.dev.client.sync.accountId == p.dev.client.sync.accountId)
  {
    match act
    case Start(_, full, now) => StartKeeps(p.dev, account, full, now, p.store);
    case RegisterDevice => ElseKeeps(account, p, act);
    case Query(newIds, now) => QueryKeeps(account, p, newIds, now);
    case BootstrapKey(candidate, newIds, now, lost) => BootstrapKeeps(account, p, candidate, newIds, now, lost);
    case BuildPush(pendingOrder, recordOrder, now) => BuildStepKeeps(account, p.dev, pendingOrder, recordOrder, now, p.store);
    case Push(n, newIds, now, lost) => PushKeeps(account, p, n, newIds, now, lost);
    case Edit(_, _) => ElseKeeps(account, p, act);
    case Finish => ElseKeeps(account, p, act);
    case Abort => ElseKeeps(account, p, act);
  }
}
