/** Edits survive refused pushes too, and so a whole sync in any interleaving. */
module SyncSurvival {
  import opened Common
  import opened SyncTypes
  import opened SyncServer
  import opened SyncServerFacts
  import opened SyncClient
  import opened SyncProtocol
  import opened SyncVault
  import opened SyncTidy
  import opened SyncInvariant
  import opened SyncSteps
  import opened SyncTheorems
  import opened SyncEdits

  // ---- refused pushes

  ghost predicate AllSurvive(vault: Vault, edits: map<RecordId, Plain>) {
    forall id :: id in edits ==> Survives(vault, edits[id])
  }

  /** For every record still to be answered, the vault holds the payload that was queued. */
  ghost predicate Matches(vault: Vault, plainById: map<RecordId, Plain>, todo: set<RecordId>) {
    forall it :: it in vault.items && ItemRecord(it.itemId) in todo ==> MatchesItem(plainById, it)
  }

  ghost predicate MatchesItem(plainById: map<RecordId, Plain>, it: Item) {
    var id := ItemRecord(it.itemId);
    id in plainById && (plainById[id].deletedAt.None? ==> plainById[id].id == id && plainById[id].body == ItemBody(it.itemType, it.itemName, it.fields))
  }

  lemma SamePayloadCarries(a: Item, b: Item, p: Plain)
    requires SamePayload(b, a) && Carries(a, p)
    ensures Carries(b, p)
  {
  }

  /** One refused row: whatever payload it displaces has just been copied. */
  lemma RefusedKeeps(w: Work, key: VaultKey, account: string, plainById: map<RecordId, Plain>, row: Row, newId: string, now: pos, todo: set<RecordId>, p: Plain)
    requires Matches(w.client.vault, plainById, todo) && row.id in todo && row.id in plainById
    requires ItemRecord(newId) !in plainById && Survives(w.client.vault, p)
    ensures Survives(TakeConflict(w, key, account, plainById, row, newId, now).client.vault, p)
  {
    var it :| it in w.client.vault.items && Carries(it, p);
    var local := plainById[row.id];
    var q := Decrypt(key, account, row);
    if local.deletedAt.None? {
      var mid := Preserve(w.client.vault, local, newId, now);
      assert it in mid.items;
      if q.Some? {
        if row.id != ItemRecord(it.itemId) {
          var kept := ApplyLeaves(mid, q.value, it);
          SamePayloadCarries(it, kept, p);
        } else {
          assert MatchesItem(plainById, it);
          var copy := ConflictCopy(local, newId, now);
          assert mid.items[|w.client.vault.items|] == copy;
          CopyOfCarrier(it, local, p, newId, now);
          var kept := ApplyLeaves(mid, q.value, copy);
          SamePayloadCarries(copy, kept, p);
        }
      }
    }
  }

  lemma RefusedMatches(w: Work, key: VaultKey, account: string, plainById: map<RecordId, Plain>, row: Row, newId: string, now: pos, todo: set<RecordId>)
    requires Matches(w.client.vault, plainById, todo) && row.id in plainById
    requires ItemRecord(newId) !in todo
    ensures Matches(TakeConflict(w, key, account, plainById, row, newId, now).client.vault, plainById, todo - {row.id})
  {
    var after := TakeConflict(w, key, account, plainById, row, newId, now).client.vault;
    var local := plainById[row.id];
    var q := Decrypt(key, account, row);
    var mid := if local.deletedAt.None? then Preserve(w.client.vault, local, newId, now) else w.client.vault;
    assert forall it :: it in mid.items ==> it in w.client.vault.items || it.itemId == newId;
    forall it | it in after.items && ItemRecord(it.itemId) in todo - {row.id} ensures MatchesItem(plainById, it) {
      if local.deletedAt.None? && q.Some? {
        var was := ApplyOrigin(mid, q.value, it);
        assert MatchesItem(plainById, was);
      } else {
        assert it in w.client.vault.items;
      }
    }
  }

  ghost predicate DistinctRows(rows: seq<Row>) {
    forall i, j :: 0 <= i < j < |rows| ==> rows[i].id != rows[j].id
  }

  function RowIds(rows: seq<Row>): set<RecordId> {
    set r | r in rows :: r.id
  }

  lemma {:induction false} ConflictsKeep(w: Work, key: VaultKey, account: string, plainById: map<RecordId, Plain>, rows: seq<Row>, newIds: seq<string>, now: pos, todo: set<RecordId>, edits: map<RecordId, Plain>)
    requires |rows| <= |newIds| && DistinctRows(rows)
    requires Matches(w.client.vault, plainById, todo) && RowIds(rows) <= todo <= plainById.Keys
    requires forall k :: 0 <= k < |newIds| ==> ItemRecord(newIds[k]) !in plainById
    ensures var v := TakeConflicts(w, key, account, plainById, rows, newIds, now).client.vault;
      Matches(v, plainById, todo - RowIds(rows)) && (AllSurvive(w.client.vault, edits) ==> AllSurvive(v, edits))
  {
    if rows == [] {
      assert todo - RowIds(rows) == todo;
    } else {
      var n := |rows| - 1;
      LastRow(rows, todo);
      ConflictsKeep(w, key, account, plainById, rows[..n], newIds, now, todo, edits);
      RefusedNext(TakeConflicts(w, key, account, plainById, rows[..n], newIds, now), key, account, plainById, rows[n], newIds[n], now,
                  todo - RowIds(rows[..n]), edits);
    }
  }

  lemma LastRow(rows: seq<Row>, todo: set<RecordId>)
    requires rows != [] && DistinctRows(rows) && RowIds(rows) <= todo
    ensures var n := |rows| - 1; var left := todo - RowIds(rows[..n]);
      DistinctRows(rows[..n]) && RowIds(rows[..n]) <= todo && rows[n].id in left && left - {rows[n].id} == todo - RowIds(rows)
  {
    var n := |rows| - 1;
    assert RowIds(rows) == RowIds(rows[..n]) + {rows[n].id} by { assert rows == rows[..n] + [rows[n]]; }
  }

  lemma RefusedNext(w: Work, key: VaultKey, account: string, plainById: map<RecordId, Plain>, row: Row, newId: string, now: pos, todo: set<RecordId>, edits: map<RecordId, Plain>)
    requires Matches(w.client.vault, plainById, todo) && row.id in todo && todo <= plainById.Keys
    requires ItemRecord(newId) !in plainById
    ensures var v := TakeConflict(w, key, account, plainById, row, newId, now).client.vault;
      Matches(v, plainById, todo - {row.id}) && (AllSurvive(w.client.vault, edits) ==> AllSurvive(v, edits))
  {
    RefusedMatches(w, key, account, plainById, row, newId, now, todo);
    RefusedKeepsAll(w, key, account, plainById, row, newId, now, todo, edits);
  }

  lemma RefusedKeepsAll(w: Work, key: VaultKey, account: string, plainById: map<RecordId, Plain>, row: Row, newId: string, now: pos, todo: set<RecordId>, edits: map<RecordId, Plain>)
    requires Matches(w.client.vault, plainById, todo) && row.id in todo && row.id in plainById
    requires ItemRecord(newId) !in plainById
    ensures AllSurvive(w.client.vault, edits) ==> AllSurvive(TakeConflict(w, key, account, plainById, row, newId, now).client.vault, edits)
  {
    if AllSurvive(w.client.vault, edits) {
      forall id | id in edits ensures Survives(TakeConflict(w, key, account, plainById, row, newId, now).client.vault, edits[id]) {
        RefusedKeeps(w, key, account, plainById, row, newId, now, todo, edits[id]);
      }
    }
  }

  lemma {:induction false} ConflictIds(s: Store, batch: seq<Encrypted>)
    requires Named(s.rows) && DistinctIds(batch) && PushRecords(s, batch).Some?
    ensures var rows := PushRecords(s, batch).value.conflicts;
      DistinctRows(rows) && forall k :: 0 <= k < |rows| ==> exists j :: 0 <= j < |batch| && batch[j].id == rows[k].id
  {
    if batch != [] {
      var init := batch[..|batch| - 1];
      ConflictIds(s, init);
      PushKeepsNamed(s, init);
      var o := PushRecords(s, init).value;
      var last := batch[|batch| - 1];
      OneConflict(o, last);
      var rows := PushRecords(s, batch).value.conflicts;
      forall k | 0 <= k < |o.conflicts| ensures o.conflicts[k].id != last.id && exists j :: 0 <= j < |batch| && batch[j].id == o.conflicts[k].id {
        var j :| 0 <= j < |init| && init[j].id == o.conflicts[k].id;
        assert batch[j].id == o.conflicts[k].id;
      }
      forall k | 0 <= k < |rows| ensures exists j :: 0 <= j < |batch| && batch[j].id == rows[k].id {
        if k == |o.conflicts| { assert batch[|batch| - 1].id == rows[k].id; }
      }
    }
  }

  lemma OneConflict(o: PushOutcome, last: Encrypted)
    requires Named(o.store.rows) && PushOne(o, last).Some?
    ensures var rows := PushOne(o, last).value.conflicts;
      rows == o.conflicts || (|rows| == |o.conflicts| + 1 && rows[..|o.conflicts|] == o.conflicts && rows[|o.conflicts|].id == last.id)
  {
  }

  // ---- the invariant of a sync

  ghost predicate ClaimOk(dirty: map<RecordId, Plain>, id: RecordId, p: Plain) {
    Copyable(p) && p.id == id && id in dirty && dirty[id] == p
  }

  ghost predicate PullEdits(client: Client, pull: Pull, rows: map<RecordId, Row>) {
    && (pull.past.tidy ==> Tidy(client))
    && Reads(client.sync.records, pull.failures, pull.past.blank, pull.past.unread)
    && forall id :: id in pull.past.edits ==> && ClaimOk(pull.dirty, id, pull.past.edits[id])
                                              && EditSafe(WorkOn(client, pull), rows, pull.past.edits[id])
  }

  /** The edits whose own row was read and whose copy did not clash. */
  function Kept(past: Past): map<RecordId, Plain> {
    map id | id in past.edits && id !in past.unread && id !in past.clashed :: past.edits[id]
  }

  function QueueIds(queue: seq<Queued>): set<RecordId> {
    set q | q in queue :: q.plain.id
  }

  ghost predicate EditsInv(dev: Dev, rows: map<RecordId, Row>) {
    match dev.phase
    case Idle => true
    case Pulling(pull, _, _, _) => PullEdits(dev.client, pull, rows)
    case AwaitingKey(pull, page, _) => PullEdits(dev.client, pull, rows) && page.rows == []
    case Pulled(pull, _) =>
      && (pull.past.tidy ==> Tidy(dev.client)) && AllSurvive(dev.client.vault, Kept(pull.past))
      && Reads(dev.client.sync.records, pull.failures, pull.past.blank, pull.past.unread)
    case Pushing(pull, _, queue, plainById, _) =>
      && (pull.past.tidy ==> Ordered(dev.client, queue, plainById) && AllSurvive(dev.client.vault, Kept(pull.past)))
      && Reads(dev.client.sync.records, pull.failures, pull.past.blank, pull.past.unread)
  }

  /** A tidy device at its pushes. */
  ghost predicate Ordered(c: Client, queue: seq<Queued>, plainById: map<RecordId, Plain>) {
    && Tidy(c) && QueueFiled(queue, plainById) && Clear(plainById, c.sync.pendingDeletes)
    && Matches(c.vault, plainById, QueueIds(queue))
  }

  lemma EditsGrow(dev: Dev, rows: map<RecordId, Row>, rows': map<RecordId, Row>)
    requires EditsInv(dev, rows) && rows.Keys <= rows'.Keys
    ensures EditsInv(dev, rows')
  {
    if dev.phase.Pulling? || dev.phase.AwaitingKey? {
      assert Clashed(dev.phase.pull.past.copies, rows) <= Clashed(dev.phase.pull.past.copies, rows');
    }
  }

  lemma RowsGrow(s: Store, t: Store)
    requires Ledger(s) && Ledger(t) && Extends(s, t)
    ensures s.rows.Keys <= t.rows.Keys
  {
    forall id | id in s.rows ensures id in t.rows {
      assert Filed(s.log, s.rows[id], id);
      PrefixEntry(s.log, t.log, s.rows[id].serverSequence - 1);
      assert Covered(t.rows, t.log[s.rows[id].serverSequence - 1]);
    }
  }

  // ---- start

  lemma {:induction false} DirtyEntries(list: seq<Plain>, records: map<RecordId, Meta>)
    ensures forall id :: id in Dirty(list, records) ==> Dirty(list, records)[id] in list && Dirty(list, records)[id].id == id
  {
    if list != [] { DirtyEntries(list[..|list| - 1], records); }
  }

  lemma {:induction false} PasskeyRecordKinds(passkeys: seq<Passkey>, now: pos)
    ensures forall r :: r in PasskeyRecords(passkeys, now) ==> r.id.SitePasskeyRecord?
  {
    if passkeys != [] { PasskeyRecordKinds(passkeys[1..], now); }
  }

  lemma ActiveItem(vault: Vault, now: pos, p: Plain) returns (it: Item)
    requires p in Active(vault, now) && p.id.ItemRecord?
    ensures it in vault.items && InPlace(it, p) && p.body == ItemBody(it.itemType, it.itemName, it.fields)
  {
    PasskeyRecordKinds(vault.sitePasskeys, now);
    assert p in ItemRecords(vault.items, now);
    var i :| 0 <= i < |vault.items| && ItemRecords(vault.items, now)[i] == p;
    it := vault.items[i];
  }

  lemma StartEdits(dev: Dev, account: string, full: bool, now: pos, rows: map<RecordId, Row>)
    requires dev.phase.Idle?
    ensures EditsInv(StartSync(dev, account, full, now), rows)
  {
    var d := StartSync(dev, account, full, now);
    var pull := d.phase.pull;
    DirtyEntries(Active(d.client.vault, now), d.client.sync.records);
    forall id | id in pull.past.edits
      ensures ClaimOk(pull.dirty, id, pull.past.edits[id]) && EditSafe(WorkOn(d.client, pull), rows, pull.past.edits[id])
    {
      var it := ActiveItem(d.client.vault, now, pull.past.edits[id]);
      assert KeptIn(pull.past.copies, it, pull.past.edits[id]);
    }
  }

  // ---- pages

  lemma WorkEdits(s: Store, account: string, client: Client, pull: Pull, key: VaultKey, rows: seq<Row>, newIds: seq<string>, now: pos)
    requires Ledger(s) && AllHeld(client.sync.records, s.log) && Readable(s, rows) && |rows| <= |newIds| && Distinct(newIds)
    requires forall k :: 0 <= k < |newIds| ==> FreshFor(client, newIds[k]) && ItemRecord(newIds[k]) !in s.rows
    requires PullEdits(client, pull, s.rows)
    ensures var r := PullRows(WorkOn(client, pull), key, account, pull.dirty, rows, newIds, now);
      PullEdits(r.client, Worked(pull, r), s.rows)
  {
    var w := WorkOn(client, pull);
    var r := PullRows(w, key, account, pull.dirty, rows, newIds, now);
    PullRowsRead(w, key, account, pull.dirty, rows, newIds, now, pull.past.blank);
    if pull.past.tidy {
      forall k, j | 0 <= k < |newIds| && 0 <= j < |rows| ensures rows[j].id != ItemRecord(newIds[k]) {
        assert Current(s, rows[j]);
      }
      TidyPullRows(w, key, account, pull.dirty, rows, newIds, now);
    }
    forall id | id in pull.past.edits ensures EditSafe(r, s.rows, pull.past.edits[id]) {
      assert ClaimOk(pull.dirty, id, pull.past.edits[id]);
      PullRowsKeep(s, w, key, account, pull.dirty, rows, newIds, now, pull.past.edits[id]);
    }
    assert WorkOn(r.client, Worked(pull, r)) == r;
  }

  lemma AbsorbEdits(account: string, p: Pair, pull: Pull, key: VaultKey, page: Page, next: nat, pages: nat, newIds: seq<string>, now: pos)
    requires Ledger(p.store) && AllHeld(p.dev.client.sync.records, p.store.log) && Readable(p.store, page.rows)
    requires |page.rows| <= |newIds| && Unused(newIds, p) && Account(p.dev) == account
    requires PullEdits(p.dev.client, pull, p.store.rows)
    ensures EditsInv(Absorb(p, pull, key, page, next, pages, newIds, now).dev, p.store.rows)
  {
    WorkEdits(p.store, account, p.dev.client, pull, key, page.rows, newIds, now);
    var r := PullRows(WorkOn(p.dev.client, pull), key, account, pull.dirty, page.rows, newIds, now);
    EditsInPhase(r.client, Worked(pull, r), p.store.rows, key, PageEnd(next, page.rows), pages + 1);
  }

  lemma EditsInPhase(client: Client, pull: Pull, rows: map<RecordId, Row>, key: VaultKey, next: nat, pages: nat)
    requires PullEdits(client, pull, rows)
    ensures EditsInv(Dev(client, Pulling(pull, Some(key), next, pages)), rows)
    ensures EditsInv(Dev(client, Pulled(Ended(pull, rows), key)), rows)
    ensures EditsInv(Dev(client, Idle), rows)
  {
    PullEnds(client, pull, rows);
  }

  lemma PullEnds(client: Client, pull: Pull, rows: map<RecordId, Row>)
    requires PullEdits(client, pull, rows)
    ensures AllSurvive(client.vault, Kept(Ended(pull, rows).past))
  {
    forall id | id in pull.past.edits && id !in pull.past.unread && id !in Clashed(pull.past.copies, rows)
      ensures Survives(client.vault, pull.past.edits[id])
    {
      var p := pull.past.edits[id];
      assert ClaimOk(pull.dirty, id, p) && EditKept(WorkOn(client, pull), p);
      var it :| it in client.vault.items && KeptIn(pull.past.copies, it, p);
      if CopyOf(it, p) { CopyOfCarries(it, p); }
    }
  }

  lemma PageReadable(account: string, s: Store, n: nat)
    requires StoreInv(account, s)
    ensures Readable(s, Scan(s, n, PULL_BATCH_LIMIT))
  {
    var rows := Scan(s, n, PULL_BATCH_LIMIT);
    ScanIsPage(s, n, PULL_BATCH_LIMIT);
    forall k | 0 <= k < |rows| ensures Current(s, rows[k]) && rows[k].hash.Sha256? {
      assert Listed(s, n, rows[k]) && Filed(s.log, rows[k], rows[k].id);
      assert SealedFor(account, s.wrapped, s.log[rows[k].serverSequence - 1]);
    }
  }

  lemma QueryEdits(account: string, p: Pair, newIds: seq<string>, now: pos)
    requires StoreInv(account, p.store) && DevInv(account, p.dev, p.store) && Account(p.dev) == account
    requires EditsInv(p.dev, p.store.rows)
    ensures EditsInv(QueryPage(p, newIds, now).dev, p.store.rows) && QueryPage(p, newIds, now).store == p.store
  {
    var ph := p.dev.phase;
    if ph.Pulling? && Unused(newIds, p) {
      var page := PullSince(p.store, ph.next, PULL_BATCH_LIMIT);
      var pull := ph.pull.(sequence := Max(ph.pull.sequence, page.sequence));
      PageReadable(account, p.store, ph.next + 1);
      if |page.rows| <= |newIds| {
        if ph.knownKey.Some? {
          AbsorbEdits(account, p, pull, ph.knownKey.value, page, ph.next, ph.pages, newIds, now);
        } else if page.wrapped.Some? {
          AbsorbEdits(account, p, pull, page.wrapped.value.key, page, ph.next, ph.pages, newIds, now);
        } else {
          ScanIsPage(p.store, ph.next + 1, PULL_BATCH_LIMIT);
          NoKeyNoRows(account, p.store, ph.next + 1, page.rows);
        }
      }
    }
  }

  lemma BootstrapEdits(account: string, p: Pair, candidate: VaultKey, newIds: seq<string>, now: pos, lost: bool)
    requires StoreInv(account, p.store) && DevInv(account, p.dev, p.store) && Account(p.dev) == account
    requires EditsInv(p.dev, p.store.rows)
    ensures EditsInv(BootstrapStep(p, candidate, newIds, now, lost).dev, p.store.rows)
    ensures BootstrapStep(p, candidate, newIds, now, lost).store.rows == p.store.rows
  {
    var ph := p.dev.phase;
    if ph.AwaitingKey? && Unused(newIds, p) && |ph.page.rows| <= |newIds| {
      var q := Bootstrapped(p);
      BootstrapFacts(p.store, if ph.candidate.None? then None else Some(Wrapped(Account(p.dev), ph.candidate.value)));
      BootstrapForms(p, candidate, newIds, now, lost);
      assert EditsInv(q.dev, q.store.rows) && Unused(newIds, q);
      BootstrappedEdits(account, q, newIds, now);
    }
  }

  function Bootstrapped(p: Pair): Pair
    requires p.dev.phase.AwaitingKey?
  {
    p.(store := Bootstrap(p.store, if p.dev.phase.candidate.None? then None else Some(Wrapped(Account(p.dev), p.dev.phase.candidate.value))))
  }

  lemma BootstrapForms(p: Pair, candidate: VaultKey, newIds: seq<string>, now: pos, lost: bool)
    requires p.dev.phase.AwaitingKey? && Unused(newIds, p) && |p.dev.phase.page.rows| <= |newIds|
    ensures var ph := p.dev.phase; var q := Bootstrapped(p); var r := BootstrapStep(p, candidate, newIds, now, lost);
      r == if lost then q.(dev := q.dev.(phase := Idle))
           else if q.store.wrapped.Some? then Absorb(q, ph.pull, q.store.wrapped.value.key, ph.page, ph.pull.since, 0, newIds, now)
           else q.(dev := q.dev.(phase := ph.(candidate := Some(candidate))))
  {
  }

  lemma BootstrappedEdits(account: string, q: Pair, newIds: seq<string>, now: pos)
    requires Ledger(q.store) && AllHeld(q.dev.client.sync.records, q.store.log) && Account(q.dev) == account
    requires q.dev.phase.AwaitingKey? && Unused(newIds, q) && |q.dev.phase.page.rows| <= |newIds|
    requires EditsInv(q.dev, q.store.rows)
    ensures var ph := q.dev.phase;
      q.store.wrapped.Some? ==> EditsInv(Absorb(q, ph.pull, q.store.wrapped.value.key, ph.page, ph.pull.since, 0, newIds, now).dev, q.store.rows)
  {
    var ph := q.dev.phase;
    if q.store.wrapped.Some? {
      AbsorbEdits(account, q, ph.pull, q.store.wrapped.value.key, ph.page, ph.pull.since, 0, newIds, now);
    }
  }

  // ---- building and pushing

  lemma BuildMatches(c: Client, list: seq<Plain>, queue: seq<Queued>, plainById: map<RecordId, Plain>, now: pos)
    requires Tidy(c) && QueueFiled(queue, plainById)
    requires forall r :: r in list && r.deletedAt.None? ==> r in Active(c.vault, now)
    requires forall i :: 0 <= i < |queue| ==> queue[i].plain in list
    ensures Matches(c.vault, plainById, QueueIds(queue))
  {
    TidyParts(c);
    forall it | it in c.vault.items && ItemRecord(it.itemId) in QueueIds(queue) ensures MatchesItem(plainById, it) {
      var q :| q in queue && q.plain.id == ItemRecord(it.itemId);
      if q.plain.deletedAt.None? {
        var same := ActiveItem(c.vault, now, q.plain);
      }
    }
  }

  /** Building the queue brings a tidy device in order. */
  lemma BuildOrdered(key: VaultKey, account: string, c: Client, pendingOrder: seq<RecordId>, recordOrder: seq<RecordId>, now: pos)
    requires Tidy(c) && Distinct(pendingOrder) && Distinct(recordOrder)
    requires forall id :: id in pendingOrder ==> id in c.sync.pendingDeletes
    ensures var b := Build(key, account, c.deviceId, c.sync.records, PushList(c.vault, c.sync, pendingOrder, recordOrder, now));
      Ordered(c.(sync := c.sync.(records := b.records)), b.queue, b.plainById)
  {
    var list := PushList(c.vault, c.sync, pendingOrder, recordOrder, now);
    var b := Build(key, account, c.deviceId, c.sync.records, list);
    PushListIds(c, pendingOrder, recordOrder, now);
    BuildFiles(key, account, c.deviceId, c.sync.records, list);
    BuildMatches(c, list, b.queue, b.plainById, now);
    ActiveIds(c, now);
    TidyFrame(c, c.(sync := c.sync.(records := b.records)));
  }

  lemma BuildReads(key: VaultKey, account: string, deviceId: string, records: map<RecordId, Meta>, list: seq<Plain>, failures: nat, past: Past)
    requires Reads(records, failures, past.blank, past.unread)
    ensures Reads(Build(key, account, deviceId, records, list).records, failures, past.blank, past.unread)
  {
    BuildVersions(key, account, deviceId, records, list);
    var b := Build(key, account, deviceId, records, list).records;
    forall id | id in Unknown(b) ensures id in Unknown(records) { assert SameVersion(records[id], b[id]); }
  }

  lemma BuildEdits(dev: Dev, pendingOrder: seq<RecordId>, recordOrder: seq<RecordId>, now: pos, rows: map<RecordId, Row>)
    requires EditsInv(dev, rows)
    ensures EditsInv(BuildStep(dev, pendingOrder, recordOrder, now), rows)
  {
    var ph := dev.phase;
    var c := dev.client;
    if ph.Pulled? && Enumerates(pendingOrder, c.sync.pendingDeletes.Keys) && Enumerates(recordOrder, c.sync.records.Keys) {
      assert forall id :: id in pendingOrder ==> id in Elements(pendingOrder);
      var list := PushList(c.vault, c.sync, pendingOrder, recordOrder, now);
      BuildReads(ph.key, Account(dev), c.deviceId, c.sync.records, list, ph.pull.failures, ph.pull.past);
      if ph.pull.past.tidy { BuildOrdered(ph.key, Account(dev), c, pendingOrder, recordOrder, now); }
    }
  }

  lemma QueueTail(queue: seq<Queued>, n: nat)
    requires n <= |queue| && forall i, j :: 0 <= i < j < |queue| ==> queue[i].plain.id != queue[j].plain.id
    ensures QueueIds(queue[n..]) <= QueueIds(queue) && QueueIds(queue[n..]) !! QueueIds(queue[..n])
  {
  }

  lemma OutcomeEdits(s: Store, queue: seq<Queued>, n: nat, w: Work, key: VaultKey, account: string, plainById: map<RecordId, Plain>, newIds: seq<string>, now: pos, edits: map<RecordId, Plain>)
    requires Named(s.rows) && n <= |queue| && n <= |newIds| && QueueFiled(queue, plainById) && Matches(w.client.vault, plainById, QueueIds(queue))
    requires forall k :: 0 <= k < |queue| ==> queue[k].record.id == queue[k].plain.id
    requires PushRecords(s, RecordsOf(queue[..n])).Some?
    requires forall k :: 0 <= k < |newIds| ==> ItemRecord(newIds[k]) !in plainById
    ensures var o := PushRecords(s, RecordsOf(queue[..n])).value; var v := TakeOutcome(w, key, account, plainById, o, newIds, now).client.vault;
      Matches(v, plainById, QueueIds(queue[n..])) && (AllSurvive(w.client.vault, edits) ==> AllSurvive(v, edits))
      && forall r :: r in o.conflicts ==> r.id in plainById
  {
    var batch := RecordsOf(queue[..n]);
    var o := PushRecords(s, batch).value;
    ConflictIds(s, batch);
    QueueTail(queue, n);
    forall r | r in o.conflicts ensures r.id in QueueIds(queue[..n]) {
      var k :| 0 <= k < |o.conflicts| && o.conflicts[k] == r;
      var j :| 0 <= j < |batch| && batch[j].id == r.id;
      assert queue[..n][j] in queue[..n];
    }
    assert QueueIds(queue[..n]) <= QueueIds(queue);
    assert QueueIds(queue) <= plainById.Keys;
    var mid := w.(client := w.client.(sync := TakeAllAccepted(w.client.sync, plainById, o.accepted)));
    ConflictsKeep(mid, key, account, plainById, o.conflicts, newIds, now, QueueIds(queue), edits);
    assert QueueIds(queue[n..]) <= QueueIds(queue) - RowIds(o.conflicts);
  }

  lemma FiledTail(queue: seq<Queued>, plainById: map<RecordId, Plain>, n: nat)
    requires n <= |queue| && QueueFiled(queue, plainById)
    ensures QueueFiled(queue[n..], plainById)
  {
  }

  /** The answer to a push keeps a tidy device in order and its edits in the vault. */
  lemma PushOrdered(account: string, p: Pair, n: nat, newIds: seq<string>, now: pos)
    requires StoreInv(account, p.store) && DevInv(account, p.dev, p.store) && Account(p.dev) == account
    requires p.dev.phase.Pushing? && n <= |p.dev.phase.queue| && Unused(newIds, p) && n <= |newIds|
    requires PushBatch(p.store, RecordsOf(p.dev.phase.queue[..n])).Some?
    requires Ordered(p.dev.client, p.dev.phase.queue, p.dev.phase.plainById)
    ensures var ph := p.dev.phase; var o := PushBatch(p.store, RecordsOf(ph.queue[..n])).value;
      var c := TakeOutcome(WorkOn(p.dev.client, ph.pull), ph.key, account, ph.plainById, o, newIds, now).client;
      Ordered(c, ph.queue[n..], ph.plainById)
      && (AllSurvive(p.dev.client.vault, Kept(ph.pull.past)) ==> AllSurvive(c.vault, Kept(ph.pull.past)))
  {
    var ph := p.dev.phase;
    var w := WorkOn(p.dev.client, ph.pull);
    LedgerNamed(p.store);
    forall k | 0 <= k < |ph.queue| ensures ph.queue[k].record.id == ph.queue[k].plain.id {
      assert QueuedOk(account, ph.key, p.dev.client.deviceId, p.store.log, ph.queue[k]);
    }
    OutcomeEdits(p.store, ph.queue, n, w, ph.key, account, ph.plainById, newIds, now, Kept(ph.pull.past));
    var o := PushBatch(p.store, RecordsOf(ph.queue[..n])).value;
    forall k, j | 0 <= k < |newIds| && 0 <= j < |o.conflicts| ensures o.conflicts[j].id != ItemRecord(newIds[k]) {
      assert o.conflicts[j] in o.conflicts;
    }
    TidyOutcome(w, ph.key, account, ph.plainById, o, newIds, now);
    FiledTail(ph.queue, ph.plainById, n);
  }

  lemma PushReads(account: string, p: Pair, n: nat, newIds: seq<string>, now: pos)
    requires StoreInv(account, p.store) && DevInv(account, p.dev, p.store) && Account(p.dev) == account
    requires p.dev.phase.Pushing? && n <= |p.dev.phase.queue| && n <= |newIds|
    requires PushBatch(p.store, RecordsOf(p.dev.phase.queue[..n])).Some?
    requires var pull := p.dev.phase.pull; Reads(p.dev.client.sync.records, pull.failures, pull.past.blank, pull.past.unread)
    ensures var ph := p.dev.phase; var o := PushBatch(p.store, RecordsOf(ph.queue[..n])).value;
      var w := TakeOutcome(WorkOn(p.dev.client, ph.pull), ph.key, account, ph.plainById, o, newIds, now);
      Reads(w.client.sync.records, w.failures, ph.pull.past.blank, ph.pull.past.unread)
  {
    var ph := p.dev.phase;
    var batch := RecordsOf(ph.queue[..n]);
    var o := PushBatch(p.store, batch).value;
    var w := WorkOn(p.dev.client, ph.pull);
    LedgerNamed(p.store);
    forall k | 0 <= k < |o.accepted| ensures o.accepted[k].hash.Sha256? {
      var j := PushAccepts(p.store, batch, o.accepted[k]);
      assert QueuedOk(account, ph.key, p.dev.client.deviceId, p.store.log, ph.queue[j]);
    }
    forall k | 0 <= k < |o.conflicts| ensures o.conflicts[k].hash.Sha256? {
      var j := PushRefuses(p.store, batch, o.conflicts[k]);
      RowSealed(account, p.store, o.conflicts[k]);
    }
    AcceptsRead(p.dev.client.sync, w.failures, ph.plainById, o.accepted, ph.pull.past.blank, w.unread);
    var mid := w.(client := w.client.(sync := TakeAllAccepted(w.client.sync, ph.plainById, o.accepted)));
    RefusalsRead(mid, ph.key, account, ph.plainById, o.conflicts, newIds, now, ph.pull.past.blank);
  }

  lemma RowSealed(account: string, s: Store, row: Row)
    requires StoreInv(account, s) && Current(s, row)
    ensures row.hash.Sha256?
  {
    assert Filed(s.log, row, row.id) && SealedFor(account, s.wrapped, s.log[row.serverSequence - 1]);
  }

  lemma PushEdits(account: string, p: Pair, n: nat, newIds: seq<string>, now: pos, lost: bool)
    requires StoreInv(account, p.store) && DevInv(account, p.dev, p.store) && Account(p.dev) == account
    requires EditsInv(p.dev, p.store.rows)
    ensures EditsInv(PushStep(p, n, newIds, now, lost).dev, PushStep(p, n, newIds, now, lost).store.rows)
  {
    var ph := p.dev.phase;
    if ph.Pushing? && n <= |ph.queue| && n != 0 && Unused(newIds, p) && n <= |newIds| && !lost {
      if PushBatch(p.store, RecordsOf(ph.queue[..n])).Some? {
        PushReads(account, p, n, newIds, now);
        if ph.pull.past.tidy { PushOrdered(account, p, n, newIds, now); }
        SameKept(ph.pull, PushStep(p, n, newIds, now, lost).dev.phase.pull);
      }
    }
  }

  lemma SameKept(a: Pull, b: Pull)
    requires a.past.edits == b.past.edits && a.past.unread == b.past.unread && a.past.clashed == b.past.clashed
    ensures Kept(a.past) == Kept(b.past)
  {
  }

  // ---- every run

  lemma QuietEdits(p: Pair, act: Action)
    requires act.Edit? || act.RegisterDevice? || act.Finish? || act.Abort?
    requires EditsInv(p.dev, p.store.rows)
    ensures EditsInv(Act(p, act).dev, Act(p, act).store.rows)
  {
    assert Act(p, act).store.rows == p.store.rows;
    assert Act(p, act).dev.phase.Idle? || Act(p, act).dev == p.dev;
  }

  lemma ActEdits(account: string, p: Pair, act: Action)
    requires StoreInv(account, p.store) && !act.Start? && Account(p.dev) == account && DevInv(account, p.dev, p.store)
    requires EditsInv(p.dev, p.store.rows)
    ensures EditsInv(Act(p, act).dev, Act(p, act).store.rows)
  {
    match act
    case Query(newIds, now) => QueryEdits(account, p, newIds, now);
    case BootstrapKey(candidate, newIds, now, lost) => BootstrapEdits(account, p, candidate, newIds, now, lost);
    case BuildPush(pendingOrder, recordOrder, now) => BuildEdits(p.dev, pendingOrder, recordOrder, now, p.store.rows);
    case Push(n, newIds, now, lost) => PushEdits(account, p, n, newIds, now, lost);
    case _ => QuietEdits(p, act);
  }

  ghost predicate DeviceEdits(w: World, d: string) {
    EditsInv(DevOf(w, d), StoreOf(w, Account(DevOf(w, d))).rows)
  }

  lemma StepEdits(w: World, e: Event, d: string)
    requires WorldInv(w) && DeviceEdits(w, d)
    ensures DeviceEdits(Step(w, e), d)
  {
    var a := Account(DevOf(w, d));
    if d != e.device {
      StepOthers(w, e, d);
      RowsGrow(StoreOf(w, a), StoreOf(Step(w, e), a));
      EditsGrow(DevOf(w, d), StoreOf(w, a).rows, StoreOf(Step(w, e), a).rows);
    } else {
      StepPair(w, e);
      if e.act.Start? { OwnStart(w, e); } else { OwnAct(w, e); }
    }
  }

  lemma OwnStart(w: World, e: Event)
    requires e.act.Start?
    ensures DevOf(w, e.device).phase.Idle? ==> var p := Act(Pair(DevOf(w, e.device), StoreOf(w, Target(w, e))), e.act); EditsInv(p.dev, p.store.rows)
  {
    var dev := DevOf(w, e.device);
    if dev.phase.Idle? { StartEdits(dev, e.act.account, e.act.full, e.act.now, StoreOf(w, e.act.account).rows); }
  }

  lemma OwnAct(w: World, e: Event)
    requires WorldInv(w) && !e.act.Start? && DeviceEdits(w, e.device)
    ensures var p := Act(PairOf(w, e.device), e.act); EditsInv(p.dev, p.store.rows)
  {
    var a := Target(w, e);
    assert StoreInv(a, StoreOf(w, a)) && DeviceInv(w, e.device);
    ActEdits(a, PairOf(w, e.device), e.act);
  }

  lemma {:induction false} RunEdits(events: seq<Event>)
    ensures forall d :: DeviceEdits(Run(events), d)
  {
    if events != [] {
      var init := events[..|events| - 1];
      RunInv(init);
      RunEdits(init);
      forall d ensures DeviceEdits(Run(events), d) { StepEdits(Run(init), events[|events| - 1], d); }
    }
  }

  /** No local edit is lost. Take any run and any item that was dirty when its device's current
      sync began and whose last acknowledged version the device had read. While the sync pulls, the
      item has its whole payload in place, or a conflict copy made by this sync has it under the name
      with the suffix; and until the sync ends, refused pushes included, some item of the vault carries
      it. The exceptions are a pulled row of this very record that could not be opened, a copy of it
      whose random identifier turned up on the server, and, once the push has begun, a vault that
      named a record twice. */
  lemma NoEditIsLost(events: seq<Event>, d: string, id: RecordId)
    requires var ph := DevOf(Run(events), d).phase; !ph.Idle? && id in ph.pull.past.edits && id !in ph.pull.past.unread
    ensures var dev := DevOf(Run(events), d); var past := dev.phase.pull.past; var p := past.edits[id];
      match dev.phase
      case Pulled(_, _) => id !in past.clashed ==> Survives(dev.client.vault, p)
      case Pushing(_, _, _, _, _) => id !in past.clashed && past.tidy ==> Survives(dev.client.vault, p)
      case _ => id !in Clashed(past.copies, PairOf(Run(events), d).store.rows) ==> EditKept(WorkOn(dev.client, dev.phase.pull), p)
  {
    RunEdits(events);
    assert DeviceEdits(Run(events), d);
    var past := DevOf(Run(events), d).phase.pull.past;
    assert id !in past.clashed ==> id in Kept(past);
  }

  /** Only records that were dirty when the sync began get copies. In any run, a payload that the
      vault has after a page query and had not before is that of a record on the page, or it is the
      copy, under the new identifier, of a dirty record that a row with another digest displaced. */
  lemma CopiesOnlyDirty(events: seq<Event>, d: string, newIds: seq<string>, now: pos, it: Item)
    requires DevOf(Run(events), d).phase.Pulling?
    requires it in QueryPage(PairOf(Run(events), d), newIds, now).dev.client.vault.items
    requires !WasThere(DevOf(Run(events), d).client.vault.items, it)
    ensures var p := PairOf(Run(events), d); var rows := PullSince(p.store, p.dev.phase.next, PULL_BATCH_LIMIT).rows;
      Arrived(rows, it.itemId) || Copied(p.dev.phase.pull.dirty, rows, newIds, it)
  {
    var p := PairOf(Run(events), d);
    var ph := p.dev.phase;
    var page := PullSince(p.store, ph.next, PULL_BATCH_LIMIT);
    var w := WorkOn(p.dev.client, ph.pull.(sequence := Max(ph.pull.sequence, page.sequence)));
    var key := if ph.knownKey.Some? then ph.knownKey else if page.wrapped.Some? then Some(page.wrapped.value.key) else None;
    if it in p.dev.client.vault.items {
      assert SamePayload(it, it);
    } else {
      assert key.Some? && |page.rows| <= |newIds|;
      PullRowsAdd(w, key.value, Account(p.dev), ph.pull.dirty, page.rows, newIds, now, it);
    }
  }
}
