/** Which rows behind its new cursor a sync knows of: those it pulled, and those that the answers to
    its pushes named. Both are told apart on the server's log. */
module SyncHeard {
  import opened Common
  import opened SyncTypes
  import opened SyncServer
  import opened SyncServerFacts
  import opened SyncClient
  import opened SyncProtocol
  import opened SyncInvariant
  import opened SyncSteps
  import opened SyncTheorems
  import opened SyncSolo
  import opened SyncCursor

  // ---- whose writes the log holds

  ghost predicate WrittenBy(log: seq<Row>, from: nat, d: string) {
    forall i :: from <= i < |log| ==> log[i].deviceId == d
  }

  ghost predicate NotWrittenBy(log: seq<Row>, from: nat, d: string) {
    forall i :: from <= i < |log| ==> log[i].deviceId != d
  }

  /** Whatever a step adds to the log is a write of the device that takes it. */
  lemma ActWrites(account: string, p: Pair, act: Action)
    requires StoreInv(account, p.store) && DevInv(account, p.dev, p.store) && Account(p.dev) == account && !act.Start?
    ensures WrittenBy(Act(p, act).store.log, |p.store.log|, p.dev.client.deviceId)
  {
    if act.Push? { PushWrites(account, p, act.n, act.newIds, act.now, act.lost); }
  }

  lemma PushWrites(account: string, p: Pair, n: nat, newIds: seq<string>, now: pos, lost: bool)
    requires StoreInv(account, p.store) && DevInv(account, p.dev, p.store) && Account(p.dev) == account
    ensures WrittenBy(PushStep(p, n, newIds, now, lost).store.log, |p.store.log|, p.dev.client.deviceId)
  {
    var ph := p.dev.phase;
    if ph.Pushing? && n <= |ph.queue| && n != 0 && Unused(newIds, p) && n <= |newIds| {
      var batch := RecordsOf(ph.queue[..n]);
      if PushBatch(p.store, batch).Some? {
        var t := PushBatch(p.store, batch).value.store;
        forall i | |p.store.log| <= i < |t.log| ensures t.log[i].deviceId == p.dev.client.deviceId {
          var k := PushLogs(p.store, batch, i);
          assert QueuedOk(account, ph.key, p.dev.client.deviceId, p.store.log, ph.queue[k]);
        }
      }
    }
  }

  /** A batch acknowledges every write it makes. */
  lemma {:induction false} WritesAreAcknowledged(s: Store, batch: seq<Encrypted>, i: nat)
    requires PushRecords(s, batch).Some? && |s.log| <= i < |PushRecords(s, batch).value.store.log|
    ensures Acknowledge(PushRecords(s, batch).value.store.log[i]) in PushRecords(s, batch).value.accepted
  {
    var init := batch[..|batch| - 1];
    var o := PushRecords(s, init).value;
    PushOneGrows(o, batch[|batch| - 1]);
    if i < |o.store.log| {
      WritesAreAcknowledged(s, init, i);
    } else {
      var p := PushRecords(s, batch).value;
      assert p.accepted[|o.accepted|] == Acknowledge(p.store.log[i]);
    }
  }

  // ---- the numbers that remembered versions carry

  /** A remembered number is an old one or one of `heard`. */
  ghost predicate Numbered(records: map<RecordId, Meta>, limit: nat, heard: set<nat>) {
    forall id :: id in records ==> records[id].serverSequence <= limit || records[id].serverSequence in heard
  }

  lemma {:induction false} AcceptsNumber(sync: Sync, plainById: map<RecordId, Plain>, accepted: seq<Accepted>, limit: nat, heard: set<nat>)
    requires Numbered(sync.records, limit, heard) && forall a :: a in accepted ==> a.serverSequence in heard
    ensures Numbered(TakeAllAccepted(sync, plainById, accepted).records, limit, heard)
  {
    if accepted != [] {
      AcceptsNumber(sync, plainById, accepted[..|accepted| - 1], limit, heard);
      assert accepted[|accepted| - 1] in accepted;
    }
  }

  lemma {:induction false} RefusalsNumber(w: Work, key: VaultKey, account: string, plainById: map<RecordId, Plain>, rows: seq<Row>, newIds: seq<string>, now: pos, limit: nat, heard: set<nat>)
    requires |rows| <= |newIds| && Numbered(w.client.sync.records, limit, heard)
    requires forall row :: row in rows && Decrypt(key, account, row).Some? ==> row.serverSequence in heard
    ensures Numbered(TakeConflicts(w, key, account, plainById, rows, newIds, now).client.sync.records, limit, heard)
  {
    if rows != [] {
      var n := |rows| - 1;
      RefusalsNumber(w, key, account, plainById, rows[..n], newIds, now, limit, heard);
      var mid := TakeConflicts(w, key, account, plainById, rows[..n], newIds, now);
      assert rows[n] in rows;
      RefusalNumbers(mid, key, account, plainById, rows[n], newIds[n], now, limit, heard);
    }
  }

  lemma RefusalNumbers(w: Work, key: VaultKey, account: string, plainById: map<RecordId, Plain>, row: Row, newId: string, now: pos, limit: nat, heard: set<nat>)
    requires Numbered(w.client.sync.records, limit, heard) && (Decrypt(key, account, row).Some? ==> row.serverSequence in heard)
    ensures Numbered(TakeConflict(w, key, account, plainById, row, newId, now).client.sync.records, limit, heard)
  {
    TakeConflictFrame(w, key, account, plainById, row, newId, now);
    RefusalNotes(w, key, account, plainById, row, newId, now);
  }

  /** A refused row is remembered exactly when it could be opened. */
  lemma RefusalNotes(w: Work, key: VaultKey, account: string, plainById: map<RecordId, Plain>, row: Row, newId: string, now: pos)
    ensures var r := TakeConflict(w, key, account, plainById, row, newId, now).client.sync.records;
      if Decrypt(key, account, row).Some? then Notes(w.client.sync.records, r, row) else r == w.client.sync.records
  {
  }

  lemma {:induction false} RefusalsKnown(t: Store, w: Work, key: VaultKey, account: string, plainById: map<RecordId, Plain>, rows: seq<Row>, newIds: seq<string>, now: pos, row: Row)
    requires Ledger(t) && AllHeld(w.client.sync.records, t.log) && AllCurrent(t, rows) && |rows| <= |newIds|
    requires row in rows && Decrypt(key, account, row).Some?
    ensures KnowsRow(t, TakeConflicts(w, key, account, plainById, rows, newIds, now).client.sync.records, row.id)
  {
    var n := |rows| - 1;
    ConflictsHeld(t, w, key, account, plainById, rows[..n], newIds, now);
    var mid := TakeConflicts(w, key, account, plainById, rows[..n], newIds, now);
    var after := TakeConflict(mid, key, account, plainById, rows[n], newIds[n], now).client.sync.records;
    RefusalNotes(mid, key, account, plainById, rows[n], newIds[n], now);
    assert Current(t, rows[n]);
    if Notes(mid.client.sync.records, after, rows[n]) { NotesKeeps(t, mid.client.sync.records, after, rows[n]); }
    if row != rows[n] {
      RefusalsKnown(t, w, key, account, plainById, rows[..n], newIds, now, row);
    }
  }

  // ---- the invariant of a sync

  ghost predicate MineHeard(log: seq<Row>, limit: nat, d: string, heard: set<nat>) {
    forall i :: limit <= i < |log| && log[i].deviceId == d ==> i + 1 in heard
  }

  ghost predicate HeardKnown(records: map<RecordId, Meta>, rows: map<RecordId, Row>, heard: set<nat>) {
    forall id :: id in rows && rows[id].serverSequence in heard ==> Knows(records, rows[id], id)
  }

  ghost predicate HeardInv(p: Pair) {
    var records, log, d := p.dev.client.sync.records, p.store.log, p.dev.client.deviceId;
    match p.dev.phase
    case Idle => true
    case Pulling(pull, _, _, _) => pull.past.heard == {}
    case AwaitingKey(pull, _, _) => pull.past.heard == {} && records == map[] && pull.sequence == 0 && NotWrittenBy(log, 0, d)
    case Pulled(pull, _) => pull.past.heard == {} && Numbered(records, pull.sequence, {}) && NotWrittenBy(log, pull.sequence, d)
    case Pushing(pull, _, _, _, _) =>
      && Numbered(records, pull.sequence, pull.past.heard) && MineHeard(log, pull.sequence, d, pull.past.heard)
      && HeardKnown(records, p.store.rows, pull.past.heard) && (forall n :: n in pull.past.heard ==> n <= |log|)
  }

  lemma HeardAbsorb(account: string, p: Pair, pull: Pull, key: VaultKey, page: Page, next: nat, pages: nat, newIds: seq<string>, now: pos)
    requires |page.rows| <= |newIds| && pull.past.heard == {} && Account(p.dev) == account
    requires Numbered(Absorb(p, pull, key, page, next, pages, newIds, now).dev.client.sync.records, pull.sequence, {})
    requires NotWrittenBy(p.store.log, pull.sequence, PullRows(WorkOn(p.dev.client, pull), key, account, pull.dirty, page.rows, newIds, now).client.deviceId)
    ensures HeardInv(Absorb(p, pull, key, page, next, pages, newIds, now))
  {
  }

  lemma HeardPage(account: string, p: Pair, key: VaultKey, newIds: seq<string>, now: pos)
    requires StoreInv(account, p.store) && DevInv(account, p.dev, p.store) && p.dev.client.sync.accountId == Some(account)
    requires p.dev.phase.Pulling? && HasKey(account, key, p.store) && HeardInv(p)
    requires |PullSince(p.store, p.dev.phase.next, PULL_BATCH_LIMIT).rows| <= |newIds|
    ensures var ph := p.dev.phase; var page := PullSince(p.store, ph.next, PULL_BATCH_LIMIT);
      HeardInv(Absorb(p, ph.pull.(sequence := Max(ph.pull.sequence, page.sequence)), key, page, ph.next, ph.pages, newIds, now))
  {
    var ph := p.dev.phase;
    var page := PullSince(p.store, ph.next, PULL_BATCH_LIMIT);
    var pull := ph.pull.(sequence := Max(ph.pull.sequence, page.sequence));
    PageKeeps(account, p, key, newIds, now);
    var q := Absorb(p, pull, key, page, ph.next, ph.pages, newIds, now);
    assert pull.sequence == |p.store.log|;
    forall id | id in q.dev.client.sync.records ensures q.dev.client.sync.records[id].serverSequence <= |p.store.log| {
      assert Held(q.store.log, id, q.dev.client.sync.records[id]);
    }
    HeardAbsorb(account, p, pull, key, page, ph.next, ph.pages, newIds, now);
  }

  lemma NoLogNoRecords(records: map<RecordId, Meta>, log: seq<Row>)
    requires AllHeld(records, log) && log == []
    ensures records == map[]
  {
    assert forall id :: id in records ==> records[id].serverSequence <= |log| && 1 <= records[id].serverSequence;
  }

  lemma HeardQuery(account: string, p: Pair, newIds: seq<string>, now: pos)
    requires StoreInv(account, p.store) && DevInv(account, p.dev, p.store) && HeardInv(p) && Account(p.dev) == account
    ensures HeardInv(QueryPage(p, newIds, now))
  {
    var ph := p.dev.phase;
    if ph.Pulling? && Unused(newIds, p) {
      var page := PullSince(p.store, ph.next, PULL_BATCH_LIMIT);
      if |page.rows| <= |newIds| {
        if ph.knownKey.Some? {
          HeardPage(account, p, ph.knownKey.value, newIds, now);
        } else if page.wrapped.Some? {
          HeardPage(account, p, page.wrapped.value.key, newIds, now);
        } else {
          ScanIsPage(p.store, ph.next + 1, PULL_BATCH_LIMIT);
          NoKeyNoRows(account, p.store, ph.next + 1, page.rows);
          NoLogNoRecords(p.dev.client.sync.records, p.store.log);
        }
      }
    }
  }

  lemma HeardBootstrap(account: string, p: Pair, candidate: VaultKey, newIds: seq<string>, now: pos, lost: bool)
    requires StoreInv(account, p.store) && DevInv(account, p.dev, p.store) && HeardInv(p) && Account(p.dev) == account
    ensures HeardInv(BootstrapStep(p, candidate, newIds, now, lost))
  {
    var q := BootstrapStep(p, candidate, newIds, now, lost);
    if p.dev.phase.AwaitingKey? {
      assert q.store.log == p.store.log && q.dev.client == p.dev.client;
    }
  }

  lemma HeardBuild(account: string, p: Pair, pendingOrder: seq<RecordId>, recordOrder: seq<RecordId>, now: pos)
    requires HeardInv(p) && Account(p.dev) == account
    ensures HeardInv(p.(dev := BuildStep(p.dev, pendingOrder, recordOrder, now)))
  {
    var ph := p.dev.phase;
    var sync := p.dev.client.sync;
    if ph.Pulled? && Enumerates(pendingOrder, sync.pendingDeletes.Keys) && Enumerates(recordOrder, sync.records.Keys) {
      assert forall id :: id in pendingOrder ==> id in Elements(pendingOrder);
      var list := PushList(p.dev.client.vault, sync, pendingOrder, recordOrder, now);
      BuildVersions(ph.key, account, p.dev.client.deviceId, sync.records, list);
      var after := Build(ph.key, account, p.dev.client.deviceId, sync.records, list).records;
      forall id | id in after ensures after[id].serverSequence <= ph.pull.sequence {
        assert SameVersion(sync.records[id], after[id]);
      }
    }
  }

  // ---- pushing

  lemma OutcomeNumbered(w: Work, key: VaultKey, account: string, plainById: map<RecordId, Plain>, o: PushOutcome, newIds: seq<string>, now: pos, limit: nat, heard: set<nat>)
    requires |o.conflicts| <= |newIds| && Numbered(w.client.sync.records, limit, heard)
    ensures Numbered(TakeOutcome(w, key, account, plainById, o, newIds, now).client.sync.records, limit, heard + Heard(key, account, o))
  {
    var all := heard + Heard(key, account, o);
    AcceptsNumber(w.client.sync, plainById, o.accepted, limit, all);
    var mid := w.(client := w.client.(sync := TakeAllAccepted(w.client.sync, plainById, o.accepted)));
    RefusalsNumber(mid, key, account, plainById, o.conflicts, newIds, now, limit, all);
  }

  lemma OutcomeHeardKnown(s: Store, batch: seq<Encrypted>, w: Work, key: VaultKey, account: string, plainById: map<RecordId, Plain>, newIds: seq<string>, now: pos, heard: set<nat>, id: RecordId)
    requires Ledger(s) && PushBatch(s, batch).Some? && AllHeld(w.client.sync.records, s.log) && |batch| <= |newIds|
    requires HeardKnown(w.client.sync.records, s.rows, heard) && forall n :: n in heard ==> n <= |s.log|
    requires var o := PushBatch(s, batch).value; id in o.store.rows && o.store.rows[id].serverSequence in heard + Heard(key, account, o)
    ensures var o := PushBatch(s, batch).value; KnowsRow(o.store, TakeOutcome(w, key, account, plainById, o, newIds, now).client.sync.records, id)
  {
    var o := PushBatch(s, batch).value;
    var n := o.store.rows[id].serverSequence;
    PushKeepsLedger(s, batch);
    LedgerNamed(o.store);
    LedgerNamed(s);
    if n in heard {
      OutcomeHeld(s, batch, w, key, account, plainById, newIds, now);
      OldRow(s.rows, s.log, o.store.rows, o.store.log, id);
      assert KnowsRow(o.store, w.client.sync.records, id);
    } else if exists a :: a in o.accepted && a.serverSequence == n {
      var a :| a in o.accepted && a.serverSequence == n;
      var k := PushAccepts(s, batch, a);
      assert o.store.bySequence[n] == id && o.store.bySequence[n] == a.id;
      AcknowledgedKnown(s, batch, w, key, account, plainById, newIds, now, a);
    } else {
      var row :| row in o.conflicts && Decrypt(key, account, row).Some? && row.serverSequence == n;
      RefusedKnown(s, batch, w, key, account, plainById, newIds, now, row);
      assert o.store.bySequence[n] == id && o.store.bySequence[n] == row.id;
    }
  }

  lemma RefusedKnown(s: Store, batch: seq<Encrypted>, w: Work, key: VaultKey, account: string, plainById: map<RecordId, Plain>, newIds: seq<string>, now: pos, row: Row)
    requires Ledger(s) && PushBatch(s, batch).Some? && AllHeld(w.client.sync.records, s.log) && |batch| <= |newIds|
    requires row in PushBatch(s, batch).value.conflicts && Decrypt(key, account, row).Some?
    ensures var o := PushBatch(s, batch).value;
      Current(o.store, row) && KnowsRow(o.store, TakeOutcome(w, key, account, plainById, o, newIds, now).client.sync.records, row.id)
  {
    var o := PushBatch(s, batch).value;
    PushKeepsLedger(s, batch);
    LedgerNamed(s);
    AllHeldGrows(w.client.sync.records, s, o.store);
    forall k | 0 <= k < |o.accepted| ensures Acknowledged(o.store, o.accepted[k]) {
      var i := PushAccepts(s, batch, o.accepted[k]);
    }
    forall k | 0 <= k < |o.conflicts| ensures Current(o.store, o.conflicts[k]) {
      var i := PushRefuses(s, batch, o.conflicts[k]);
    }
    AcceptedHeld(o.store, w.client.sync, plainById, o.accepted);
    var mid := w.(client := w.client.(sync := TakeAllAccepted(w.client.sync, plainById, o.accepted)));
    RefusalsKnown(o.store, mid, key, account, plainById, o.conflicts, newIds, now, row);
  }

  lemma OutcomeMineHeard(s: Store, batch: seq<Encrypted>, key: VaultKey, account: string, limit: nat, d: string, heard: set<nat>)
    requires Ledger(s) && PushBatch(s, batch).Some? && MineHeard(s.log, limit, d, heard)
    ensures var o := PushBatch(s, batch).value; MineHeard(o.store.log, limit, d, heard + Heard(key, account, o))
  {
    var o := PushBatch(s, batch).value;
    PushKeepsLedger(s, batch);
    forall i | limit <= i < |o.store.log| && o.store.log[i].deviceId == d ensures i + 1 in heard + Heard(key, account, o) {
      if i < |s.log| {
        PrefixEntry(s.log, o.store.log, i);
      } else {
        WriteIsHeard(s, batch, key, account, i);
      }
    }
  }

  lemma WriteIsHeard(s: Store, batch: seq<Encrypted>, key: VaultKey, account: string, i: nat)
    requires PushBatch(s, batch).Some? && |s.log| <= i < |PushBatch(s, batch).value.store.log|
    requires PushBatch(s, batch).value.store.log[i].serverSequence == i + 1
    ensures i + 1 in Heard(key, account, PushBatch(s, batch).value)
  {
    WritesAreAcknowledged(s, batch, i);
  }

  lemma HeardBound(s: Store, batch: seq<Encrypted>, key: VaultKey, account: string, n: nat)
    requires Ledger(s) && PushBatch(s, batch).Some? && n in Heard(key, account, PushBatch(s, batch).value)
    ensures n <= |PushBatch(s, batch).value.store.log|
  {
    var o := PushBatch(s, batch).value;
    PushKeepsLedger(s, batch);
    LedgerNamed(s);
    if a :| a in o.accepted && a.serverSequence == n {
      var k := PushAccepts(s, batch, a);
      assert Filed(o.store.log, o.store.rows[a.id], a.id);
    } else {
      var row :| row in o.conflicts && row.serverSequence == n;
      var k := PushRefuses(s, batch, row);
      assert Filed(o.store.log, o.store.rows[row.id], row.id);
    }
  }

  lemma HeardPush(account: string, p: Pair, n: nat, newIds: seq<string>, now: pos, lost: bool)
    requires StoreInv(account, p.store) && DevInv(account, p.dev, p.store) && HeardInv(p) && Account(p.dev) == account
    ensures HeardInv(PushStep(p, n, newIds, now, lost))
  {
    var ph := p.dev.phase;
    if ph.Pushing? && n <= |ph.queue| && n != 0 && Unused(newIds, p) && n <= |newIds| && !lost {
      if PushBatch(p.store, RecordsOf(ph.queue[..n])).Some? { HeardAnswer(account, p, n, newIds, now); }
    }
  }

  lemma HeardAnswer(account: string, p: Pair, n: nat, newIds: seq<string>, now: pos)
    requires StoreInv(account, p.store) && DevInv(account, p.dev, p.store) && HeardInv(p) && Account(p.dev) == account
    requires p.dev.phase.Pushing? && 0 < n <= |p.dev.phase.queue| && Unused(newIds, p) && n <= |newIds|
    requires PushBatch(p.store, RecordsOf(p.dev.phase.queue[..n])).Some?
    ensures HeardInv(PushStep(p, n, newIds, now, false))
  {
    var ph := p.dev.phase;
    var batch := RecordsOf(ph.queue[..n]);
    var o := PushBatch(p.store, batch).value;
    var w := WorkOn(p.dev.client, ph.pull);
    var heard := ph.pull.past.heard;
    OutcomeNumbered(w, ph.key, account, ph.plainById, o, newIds, now, ph.pull.sequence, heard);
    OutcomeMineHeard(p.store, batch, ph.key, account, ph.pull.sequence, p.dev.client.deviceId, heard);
    OutcomeHeld(p.store, batch, w, ph.key, account, ph.plainById, newIds, now);
    var after := TakeOutcome(w, ph.key, account, ph.plainById, o, newIds, now).client;
    forall id | id in o.store.rows && o.store.rows[id].serverSequence in heard + Heard(ph.key, account, o)
      ensures Knows(after.sync.records, o.store.rows[id], id)
    {
      OutcomeHeardKnown(p.store, batch, w, ph.key, account, ph.plainById, newIds, now, heard, id);
      assert KnowsRow(o.store, after.sync.records, id);
    }
    PushKeepsLedger(p.store, batch);
    forall m | m in Heard(ph.key, account, o) ensures m <= |o.store.log| { HeardBound(p.store, batch, ph.key, account, m); }
    var q := PushStep(p, n, newIds, now, false);
    assert q.store == o.store && q.dev.client == after && q.dev.phase.pull.past.heard == heard + Heard(ph.key, account, o);
  }

  // ---- where the pull began

  ghost predicate SinceInv(dev: Dev) {
    dev.phase.Idle? || dev.phase.pull.since <= dev.client.sync.serverSequence
  }

  lemma SinceAct(account: string, p: Pair, act: Action)
    requires StoreInv(account, p.store) && DevInv(account, p.dev, p.store) && SinceInv(p.dev) && Account(p.dev) == account && !act.Start?
    ensures SinceInv(Act(p, act).dev)
  {
    if !act.Finish? { ActKeepsCursor(account, p, act); }
  }

  // ---- every run

  lemma HeardAct(account: string, p: Pair, act: Action)
    requires StoreInv(account, p.store) && DevInv(account, p.dev, p.store) && HeardInv(p) && Account(p.dev) == account && !act.Start?
    ensures HeardInv(Act(p, act))
  {
    match act
    case Query(newIds, now) => HeardQuery(account, p, newIds, now);
    case BootstrapKey(candidate, newIds, now, lost) => HeardBootstrap(account, p, candidate, newIds, now, lost);
    case BuildPush(pendingOrder, recordOrder, now) => HeardBuild(account, p, pendingOrder, recordOrder, now);
    case Push(n, newIds, now, lost) => HeardPush(account, p, n, newIds, now, lost);
    case _ =>
  }

  lemma HeardGrows(account: string, dev: Dev, s: Store, t: Store, e: string)
    requires Ledger(s) && Ledger(t) && Extends(s, t) && DevInv(account, dev, s) && HeardInv(Pair(dev, s))
    requires WrittenBy(t.log, |s.log|, e) && e != dev.client.deviceId
    ensures HeardInv(Pair(dev, t))
  {
    forall i | 0 <= i < |s.log| ensures t.log[i] == s.log[i] { PrefixEntry(s.log, t.log, i); }
    if dev.phase.Pushing? {
      forall id | id in t.rows && t.rows[id].serverSequence in dev.phase.pull.past.heard ensures Knows(dev.client.sync.records, t.rows[id], id) {
        OldRow(s.rows, s.log, t.rows, t.log, id);
      }
    }
  }

  lemma StepWrites(w: World, e: Event, a: string)
    requires WorldInv(w)
    ensures WrittenBy(StoreOf(Step(w, e), a).log, |StoreOf(w, a).log|, e.device)
  {
    assert DeviceInv(w, e.device) && StoreInv(Target(w, e), StoreOf(w, Target(w, e)));
    if a == Target(w, e) && !e.act.Start? { ActWrites(a, Pair(DevOf(w, e.device), StoreOf(w, a)), e.act); }
  }

  lemma HeardOthersStep(w: World, e: Event, d: string)
    requires WorldInv(w) && HeardInv(PairOf(w, d)) && SinceInv(DevOf(w, d)) && d != e.device
    ensures HeardInv(PairOf(Step(w, e), d)) && SinceInv(DevOf(Step(w, e), d))
  {
    var a := Account(DevOf(w, d));
    assert StoreInv(a, StoreOf(w, a)) && DeviceInv(w, d);
    StepOthers(w, e, d);
    StepWrites(w, e, a);
    HeardGrows(a, DevOf(w, d), StoreOf(w, a), StoreOf(Step(w, e), a), e.device);
  }

  lemma HeardOwnStep(w: World, e: Event)
    requires WorldInv(w) && HeardInv(PairOf(w, e.device)) && SinceInv(DevOf(w, e.device))
    ensures HeardInv(PairOf(Step(w, e), e.device)) && SinceInv(DevOf(Step(w, e), e.device))
  {
    if e.act.Start? {
      StepPair(w, e);
    } else {
      var a, p := Account(DevOf(w, e.device)), PairOf(w, e.device);
      assert StoreInv(a, p.store) && DevInv(a, p.dev, p.store) by { assert StoreInv(a, StoreOf(w, a)) && DeviceInv(w, e.device); }
      HeardOwnAct(a, p, e.act);
      assert PairOf(Step(w, e), e.device) == Act(p, e.act) by { StepPair(w, e); }
    }
  }

  lemma HeardOwnAct(account: string, p: Pair, act: Action)
    requires StoreInv(account, p.store) && DevInv(account, p.dev, p.store) && HeardInv(p) && SinceInv(p.dev) && Account(p.dev) == account && !act.Start?
    ensures HeardInv(Act(p, act)) && SinceInv(Act(p, act).dev)
  {
    HeardAct(account, p, act);
    SinceAct(account, p, act);
  }

  lemma {:induction false} HeardRun(events: seq<Event>, d: string)
    ensures HeardInv(PairOf(Run(events), d)) && SinceInv(DevOf(Run(events), d))
  {
    if events != [] {
      var init := events[..|events| - 1];
      RunInv(init);
      HeardRun(init, d);
      var e := events[|events| - 1];
      if e.device == d { HeardOwnStep(Run(init), e); } else { HeardOthersStep(Run(init), e, d); }
    }
  }

  // ---- the cursor, exactly

  /** The row came back to this sync: the device wrote it, or an answer to one of its pushes named it,
      as an acknowledgement or as a conflict that it could open. */
  predicate CameBack(row: Row, d: string, heard: set<nat>) {
    row.deviceId == d || row.serverSequence in heard
  }

  /** In every run, a sync that began from scratch or from a sound cursor leaves a sound cursor if and
      only if each current row numbered in its gap, after its pull and up to its last push, came back
      to it. */
  lemma CursorSoundExactlyWhen(events: seq<Event>, d: string)
    requires var p := PairOf(Run(events), d);
      p.dev.phase.Pushing? && p.dev.phase.queue == [] && (p.dev.phase.pull.since == 0 || CursorSound(p.dev.client.sync, p.store.rows))
    ensures var p := PairOf(Run(events), d); var ph := p.dev.phase;
      CursorSound(FinishStep(p.dev).client.sync, p.store.rows)
      <==> forall id :: id in p.store.rows && ph.pull.sequence < p.store.rows[id].serverSequence <= ph.sequence
             ==> CameBack(p.store.rows[id], d, ph.pull.past.heard)
  {
    RunInv(events);
    HeardRun(events, d);
    var p := PairOf(Run(events), d);
    assert DeviceInv(Run(events), d) && StoreInv(Account(p.dev), p.store);
    ExactlyHere(Account(p.dev), p);
  }

  lemma ExactlyHere(account: string, p: Pair)
    requires StoreInv(account, p.store) && DevInv(account, p.dev, p.store) && HeardInv(p) && SinceInv(p.dev) && Account(p.dev) == account
    requires p.dev.phase.Pushing? && p.dev.phase.queue == []
    requires p.dev.phase.pull.since == 0 || CursorSound(p.dev.client.sync, p.store.rows)
    ensures var ph := p.dev.phase;
      CursorSound(FinishStep(p.dev).client.sync, p.store.rows)
      <==> forall id :: id in p.store.rows && ph.pull.sequence < p.store.rows[id].serverSequence <= ph.sequence
             ==> CameBack(p.store.rows[id], p.dev.client.deviceId, ph.pull.past.heard)
  {
    var ph, rows, records := p.dev.phase, p.store.rows, p.dev.client.sync.records;
    forall id | id in rows && ph.pull.sequence < rows[id].serverSequence
      ensures Knows(records, rows[id], id) <==> CameBack(rows[id], p.dev.client.deviceId, ph.pull.past.heard)
    {
      assert Filed(p.store.log, rows[id], id);
    }
    forall id | id in rows && rows[id].serverSequence <= ph.pull.sequence ensures Knows(records, rows[id], id) {
      EarlierKnown(account, p, id);
    }
  }

  lemma EarlierKnown(account: string, p: Pair, id: RecordId)
    requires StoreInv(account, p.store) && DevInv(account, p.dev, p.store) && Account(p.dev) == account && p.dev.phase.Pushing?
    requires SinceInv(p.dev)
    requires p.dev.phase.pull.since == 0 || CursorSound(p.dev.client.sync, p.store.rows)
    requires id in p.store.rows && p.store.rows[id].serverSequence <= p.dev.phase.pull.sequence
    ensures Knows(p.dev.client.sync.records, p.store.rows[id], id)
  {
    assert Filed(p.store.log, p.store.rows[id], id);
    if p.store.rows[id].serverSequence > p.dev.phase.pull.since {
      assert Caught(p.dev.client.sync.records, p.store.rows, p.dev.phase.pull.since, p.dev.phase.pull.sequence);
    }
  }
}
