/** What every reachable state of the system satisfies, and why each step keeps it. */
module SyncInvariant {
  import opened Common
  import opened SyncTypes
  import opened SyncServer
  import opened SyncServerFacts
  import opened SyncClient
  import opened SyncProtocol

  // ---- the invariant

  /** Every logged write was sealed by a device that had the account's one vault key, for exactly
      the record and revision it is filed under. */
  ghost predicate SealedFor(account: string, wrapped: Option<Wrapped>, entry: Row) {
    && wrapped.Some?
    && entry.box.key == wrapped.value.key
    && entry.box.aad == Aad(account, entry.id, entry.revision)
    && entry.hash == Hash(entry.box.plain)
    && entry.box.plain.id == entry.id
    && (entry.box.plain.deletedAt.Some? ==> entry.deletedAt.Some?)
  }

  ghost predicate StoreInv(account: string, s: Store) {
    && Ledger(s)
    && (s.wrapped.Some? ==> s.wrapped.value.account == account)
    && (forall i :: 0 <= i < |s.log| ==> SealedFor(account, s.wrapped, s.log[i]))
  }

  /** The server really held this version of the record, under this sequence number. */
  ghost predicate Held(log: seq<Row>, id: RecordId, m: Meta) {
    && 1 <= m.serverSequence <= |log|
    && var entry := log[m.serverSequence - 1];
       entry.id == id && entry.revision == m.revision && (m.hash == NoHash || m.hash == entry.hash)
  }

  ghost predicate AllHeld(records: map<RecordId, Meta>, log: seq<Row>) {
    forall id :: id in records ==> Held(log, id, records[id])
  }

  /** The device knows the current version of every record numbered above `lo` up to `hi`. */
  ghost predicate Caught(records: map<RecordId, Meta>, rows: map<RecordId, Row>, lo: nat, hi: nat) {
    forall id :: id in rows && lo < rows[id].serverSequence <= hi ==> Knows(records, rows[id], id)
  }

  ghost predicate Knows(records: map<RecordId, Meta>, row: Row, id: RecordId) {
    id in records && records[id].serverSequence == row.serverSequence
  }

  ghost predicate QueuedOk(account: string, key: VaultKey, deviceId: string, log: seq<Row>, q: Queued) {
    && q.record == Encrypt(key, account, deviceId, RevisionOn(q.base), q.plain)
    && (q.base.Some? ==> Held(log, q.plain.id, q.base.value))
  }

  ghost predicate HasKey(account: string, key: VaultKey, s: Store) {
    s.wrapped == Some(Wrapped(account, key)) && s.bootstrapped
  }

  ghost predicate PhaseInv(account: string, dev: Dev, s: Store) {
    var records := dev.client.sync.records;
    match dev.phase
    case Idle => true
    case Pulling(pull, knownKey, next, pages) =>
      && (knownKey.Some? ==> HasKey(account, knownKey.value, s))
      && (knownKey.None? ==> next == pull.since && pages == 0)
      && pull.since <= next <= |s.log| && pull.since <= pull.sequence <= |s.log|
      && Caught(records, s.rows, pull.since, next)
      && pages < MAX_PULL_PAGES
    case AwaitingKey(pull, page, _) =>
      page.rows == [] && pull.sequence == pull.since <= |s.log|
    case Pulled(pull, key) =>
      HasKey(account, key, s) && PullDone(records, pull, s)
    case Pushing(pull, key, queue, _, sequence) =>
      && HasKey(account, key, s) && PullDone(records, pull, s) && sequence <= |s.log|
      && forall k :: 0 <= k < |queue| ==> QueuedOk(account, key, dev.client.deviceId, s.log, queue[k])
  }

  /** Until the sync ends, everything up to the sequence number that the pull returned is known. */
  ghost predicate PullDone(records: map<RecordId, Meta>, pull: Pull, s: Store) {
    pull.since <= pull.sequence <= |s.log| && Caught(records, s.rows, pull.since, pull.sequence)
  }

  ghost predicate DevInv(account: string, dev: Dev, s: Store) {
    var sync := dev.client.sync;
    if sync.accountId.None? then dev.phase.Idle? && sync.records == map[] && sync.serverSequence == 0
    else AllHeld(sync.records, s.log) && sync.serverSequence <= |s.log| && PhaseInv(account, dev, s)
  }

  // ---- the invariant survives what other devices do

  lemma HeldGrows(s: Store, t: Store, id: RecordId, m: Meta)
    requires Extends(s, t) && Held(s.log, id, m)
    ensures Held(t.log, id, m)
  {
    assert t.log[m.serverSequence - 1] == t.log[..|s.log|][m.serverSequence - 1];
  }

  lemma AllHeldGrows(records: map<RecordId, Meta>, s: Store, t: Store)
    requires Extends(s, t) && AllHeld(records, s.log)
    ensures AllHeld(records, t.log)
  {
    forall id | id in records ensures Held(t.log, id, records[id]) { HeldGrows(s, t, id, records[id]); }
  }

  lemma PrefixEntry(small: seq<Row>, large: seq<Row>, i: nat)
    requires i < |small| <= |large| && large[..|small|] == small
    ensures large[i] == small[i]
  {
    assert large[i] == large[..|small|][i];
  }

  /** A row of the larger table with an old number was already there. */
  lemma OldRow(rows: map<RecordId, Row>, log: seq<Row>, rows': map<RecordId, Row>, log': seq<Row>, id: RecordId)
    requires Booked(rows, |log|, log) && Booked(rows', |log'|, log')
    requires |log| <= |log'| && log'[..|log|] == log
    requires id in rows' && rows'[id].serverSequence <= |log|
    ensures id in rows && rows[id] == rows'[id]
  {
    var entry := rows'[id];
    assert Filed(log', entry, id);
    PrefixEntry(log, log', entry.serverSequence - 1);
    assert Covered(rows, log[entry.serverSequence - 1]);
    var row := rows[id];
    assert Filed(log, row, id);
    PrefixEntry(log, log', row.serverSequence - 1);
    assert Covered(rows', log'[row.serverSequence - 1]);
  }

  lemma CaughtGrows(records: map<RecordId, Meta>, s: Store, t: Store, lo: nat, hi: nat)
    requires Ledger(s) && Ledger(t) && Extends(s, t) && hi <= |s.log|
    requires Caught(records, s.rows, lo, hi)
    ensures Caught(records, t.rows, lo, hi)
  {
    forall id | id in t.rows && lo < t.rows[id].serverSequence <= hi ensures Knows(records, t.rows[id], id) {
      OldRow(s.rows, s.log, t.rows, t.log, id);
      assert Knows(records, s.rows[id], id);
    }
  }

  lemma QueueGrows(account: string, key: VaultKey, deviceId: string, s: Store, t: Store, queue: seq<Queued>)
    requires Extends(s, t)
    requires forall k :: 0 <= k < |queue| ==> QueuedOk(account, key, deviceId, s.log, queue[k])
    ensures forall k :: 0 <= k < |queue| ==> QueuedOk(account, key, deviceId, t.log, queue[k])
  {
    forall k | 0 <= k < |queue| ensures QueuedOk(account, key, deviceId, t.log, queue[k]) {
      assert QueuedOk(account, key, deviceId, s.log, queue[k]);
      if queue[k].base.Some? { HeldGrows(s, t, queue[k].plain.id, queue[k].base.value); }
    }
  }

  lemma DevInvGrows(account: string, dev: Dev, s: Store, t: Store)
    requires Ledger(s) && Ledger(t) && Extends(s, t) && DevInv(account, dev, s)
    ensures DevInv(account, dev, t)
  {
    if dev.client.sync.accountId.Some? {
      AllHeldGrows(dev.client.sync.records, s, t);
      match dev.phase
      case Pulling(pull, _, next, _) => CaughtGrows(dev.client.sync.records, s, t, pull.since, next);
      case Pulled(pull, _) => CaughtGrows(dev.client.sync.records, s, t, pull.since, pull.sequence);
      case Pushing(pull, key, queue, _, _) =>
        CaughtGrows(dev.client.sync.records, s, t, pull.since, pull.sequence);
        QueueGrows(account, key, dev.client.deviceId, s, t, queue);
      case _ =>
    }
  }

  // ---- one pulled row

  lemma CurrentRow(s: Store, id: RecordId, m: Meta)
    requires Ledger(s) && Held(s.log, id, m)
    ensures id in s.rows && m.revision <= s.rows[id].revision && m.serverSequence <= s.rows[id].serverSequence
    ensures m.revision == s.rows[id].revision ==> s.log[m.serverSequence - 1] == s.rows[id]
    ensures m.serverSequence == s.rows[id].serverSequence ==> s.log[m.serverSequence - 1] == s.rows[id]
  {
    assert Covered(s.rows, s.log[m.serverSequence - 1]);
    assert Filed(s.log, s.rows[id], id);
  }

  /** A device is never ahead of the server, so the branch for a stale row is never taken. */
  lemma NeverStale(s: Store, sync: Sync, row: Row)
    requires Ledger(s) && AllHeld(sync.records, s.log) && row.id in s.rows && s.rows[row.id] == row
    ensures !Stale(sync, row)
  {
    if row.id in sync.records {
      CurrentRow(s, row.id, sync.records[row.id]);
    }
  }

  lemma RowHeld(s: Store, row: Row, m: Meta)
    requires Ledger(s) && row.id in s.rows && s.rows[row.id] == row
    requires m.revision == row.revision && m.serverSequence == row.serverSequence && (m.hash == NoHash || m.hash == row.hash)
    ensures Held(s.log, row.id, m)
  {
    assert Filed(s.log, row, row.id);
  }

  ghost predicate Current(s: Store, row: Row) {
    row.id in s.rows && s.rows[row.id] == row
  }

  /** Only the entry of the pulled record changes, and it comes to name the pulled version. */
  ghost predicate Notes(before: map<RecordId, Meta>, after: map<RecordId, Meta>, row: Row) {
    && row.id in after
    && after == before[row.id := after[row.id]]
    && after[row.id].serverSequence == row.serverSequence
    && (after[row.id].hash == NoHash || after[row.id].hash == row.hash)
    && (after[row.id].revision == row.revision
        || (row.id in before && after[row.id].revision == Max(before[row.id].revision, row.revision)))
  }

  lemma CopyFirstFrame(w: Work, dirty: map<RecordId, Plain>, row: Row, newId: string, now: pos)
    ensures var c := CopyFirst(w, dirty, row, newId, now).client;
      c.sync.records == w.client.sync.records && c.sync.pendingDeletes == w.client.sync.pendingDeletes
      && c.sync.serverSequence == w.client.sync.serverSequence && c.sync.accountId == w.client.sync.accountId
      && c.deviceId == w.client.deviceId && c.vault.settings == w.client.vault.settings && c.vault.sitePasskeys == w.client.vault.sitePasskeys
  {
  }

  lemma PullFreshNotes(w: Work, dirty: map<RecordId, Plain>, row: Row, p: Plain, newId: string, now: pos)
    ensures Notes(w.client.sync.records, PullFresh(w, dirty, row, p, newId, now).client.sync.records, row)
  {
    CopyFirstFrame(w, dirty, row, newId, now);
    var c := CopyFirst(w, dirty, row, newId, now);
    assert PullFresh(w, dirty, row, p, newId, now).client.sync == WithMeta(c.client.sync, row.id, MetaOfRow(row, MetaItemId(p)));
  }

  lemma PullRowNotes(w: Work, key: VaultKey, account: string, dirty: map<RecordId, Plain>, row: Row, newId: string, now: pos)
    requires !Stale(w.client.sync, row)
    ensures Notes(w.client.sync.records, PullRow(w, key, account, dirty, row, newId, now).client.sync.records, row)
  {
    var p := Decrypt(key, account, row);
    if p.Some? { PullFreshNotes(w, dirty, row, p.value, newId, now); }
  }

  lemma PullRowHeld(s: Store, w: Work, key: VaultKey, account: string, dirty: map<RecordId, Plain>, row: Row, newId: string, now: pos)
    requires Ledger(s) && Current(s, row) && AllHeld(w.client.sync.records, s.log)
    ensures var r := PullRow(w, key, account, dirty, row, newId, now).client.sync.records;
      && AllHeld(r, s.log) && Knows(r, row, row.id)
      && (forall id :: id != row.id ==> BaseOf(r, id) == BaseOf(w.client.sync.records, id))
  {
    NeverStale(s, w.client.sync, row);
    PullRowNotes(w, key, account, dirty, row, newId, now);
    NotesHeld(s, w.client.sync.records, PullRow(w, key, account, dirty, row, newId, now).client.sync.records, row);
  }

  lemma NotesHeld(s: Store, before: map<RecordId, Meta>, after: map<RecordId, Meta>, row: Row)
    requires Ledger(s) && Current(s, row) && AllHeld(before, s.log) && Notes(before, after, row)
    ensures AllHeld(after, s.log) && Knows(after, row, row.id)
  {
    if row.id in before { CurrentRow(s, row.id, before[row.id]); }
    RowHeld(s, row, after[row.id]);
  }

  ghost predicate AllCurrent(s: Store, rows: seq<Row>) {
    forall k :: 0 <= k < |rows| ==> Current(s, rows[k])
  }

  /** What was known stays known, and every row worked through becomes known. */
  ghost predicate Learned(s: Store, before: map<RecordId, Meta>, after: map<RecordId, Meta>, rows: seq<Row>) {
    && (forall k :: 0 <= k < |rows| ==> Knows(after, rows[k], rows[k].id))
    && (forall id :: id in s.rows && Knows(before, s.rows[id], id) ==> Knows(after, s.rows[id], id))
  }

  lemma LearnOne(s: Store, before: map<RecordId, Meta>, mid: map<RecordId, Meta>, after: map<RecordId, Meta>, rows: seq<Row>)
    requires rows != [] && AllCurrent(s, rows)
    requires Learned(s, before, mid, rows[..|rows| - 1])
    requires var row := rows[|rows| - 1];
      Knows(after, row, row.id) && forall id :: id != row.id ==> BaseOf(after, id) == BaseOf(mid, id)
    ensures Learned(s, before, after, rows)
  {
    var row := rows[|rows| - 1];
    assert Current(s, row);
    forall id | id in s.rows && Knows(mid, s.rows[id], id) ensures Knows(after, s.rows[id], id) {
      if id != row.id { assert BaseOf(after, id) == BaseOf(mid, id); }
    }
    forall k | 0 <= k < |rows| ensures Knows(after, rows[k], rows[k].id) {
      if k < |rows| - 1 {
        assert Knows(mid, rows[..|rows| - 1][k], rows[k].id);
        assert Current(s, rows[k]);
      }
    }
  }

  lemma {:induction false} PullRowsHeld(s: Store, w: Work, key: VaultKey, account: string, dirty: map<RecordId, Plain>, rows: seq<Row>, newIds: seq<string>, now: pos)
    requires Ledger(s) && AllCurrent(s, rows) && |rows| <= |newIds| && AllHeld(w.client.sync.records, s.log)
    ensures var r := PullRows(w, key, account, dirty, rows, newIds, now).client.sync.records;
      AllHeld(r, s.log) && Learned(s, w.client.sync.records, r, rows)
  {
    if rows != [] {
      var n := |rows| - 1;
      PullRowsHeld(s, w, key, account, dirty, rows[..n], newIds, now);
      var mid := PullRows(w, key, account, dirty, rows[..n], newIds, now);
      assert Current(s, rows[n]);
      PullRowHeld(s, mid, key, account, dirty, rows[n], newIds[n], now);
      LearnOne(s, w.client.sync.records, mid.client.sync.records,
               PullRow(mid, key, account, dirty, rows[n], newIds[n], now).client.sync.records, rows);
    }
  }

  lemma PullRowFrame(w: Work, key: VaultKey, account: string, dirty: map<RecordId, Plain>, row: Row, newId: string, now: pos)
    ensures var r := PullRow(w, key, account, dirty, row, newId, now).client;
      r.deviceId == w.client.deviceId && r.sync.accountId == w.client.sync.accountId && r.sync.serverSequence == w.client.sync.serverSequence
  {
    var p := Decrypt(key, account, row);
    if p.Some? { PullFreshFrame(w, dirty, row, p.value, newId, now); }
  }

  lemma PullFreshFrame(w: Work, dirty: map<RecordId, Plain>, row: Row, p: Plain, newId: string, now: pos)
    ensures var r := PullFresh(w, dirty, row, p, newId, now).client;
      r.deviceId == w.client.deviceId && r.sync.accountId == w.client.sync.accountId && r.sync.serverSequence == w.client.sync.serverSequence
  {
    CopyFirstFrame(w, dirty, row, newId, now);
  }

  lemma {:induction false} PullRowsFrame(w: Work, key: VaultKey, account: string, dirty: map<RecordId, Plain>, rows: seq<Row>, newIds: seq<string>, now: pos)
    requires |rows| <= |newIds|
    ensures var r := PullRows(w, key, account, dirty, rows, newIds, now).client;
      r.deviceId == w.client.deviceId && r.sync.accountId == w.client.sync.accountId && r.sync.serverSequence == w.client.sync.serverSequence
  {
    if rows != [] {
      var n := |rows| - 1;
      PullRowsFrame(w, key, account, dirty, rows[..n], newIds, now);
      PullRowFrame(PullRows(w, key, account, dirty, rows[..n], newIds, now), key, account, dirty, rows[n], newIds[n], now);
    }
  }

  // ---- a page

  lemma {:induction false} PageEndIsLast(next: nat, rows: seq<Row>)
    requires forall j, k :: 0 <= j < k < |rows| ==> rows[j].serverSequence < rows[k].serverSequence
    requires forall k :: 0 <= k < |rows| ==> next < rows[k].serverSequence
    ensures PageEnd(next, rows) == if rows == [] then next else rows[|rows| - 1].serverSequence
  {
    if rows != [] { PageEndIsLast(next, rows[..|rows| - 1]); }
  }

  /** A page that starts where the last one ended leaves no gap: everything up to its end is
      known, and everything at all once a page is not full. */
  lemma PageCatches(s: Store, before: map<RecordId, Meta>, after: map<RecordId, Meta>, since: nat, next: nat, rows: seq<Row>)
    requires Ledger(s) && PageOf(s, next + 1, PULL_BATCH_LIMIT, rows)
    requires Caught(before, s.rows, since, next)
    requires Learned(s, before, after, rows)
    ensures Caught(after, s.rows, since, PageEnd(next, rows))
    ensures |rows| < PULL_BATCH_LIMIT ==> Caught(after, s.rows, since, |s.log|)
    ensures rows != [] ==> next < PageEnd(next, rows) <= |s.log|
  {
    forall k | 0 <= k < |rows| ensures next < rows[k].serverSequence <= |s.log| {
      assert Listed(s, next + 1, rows[k]) && Filed(s.log, s.rows[rows[k].id], rows[k].id);
    }
    PageEndIsLast(next, rows);
    forall id | id in s.rows && since < s.rows[id].serverSequence
        && (|rows| < PULL_BATCH_LIMIT || s.rows[id].serverSequence <= PageEnd(next, rows))
      ensures Knows(after, s.rows[id], id)
    {
      if next < s.rows[id].serverSequence {
        assert Delivered(PULL_BATCH_LIMIT, rows, s.rows[id]);
        assert s.rows[id] in rows;
        assert Filed(s.log, s.rows[id], id);
      } else {
        assert Knows(before, s.rows[id], id);
      }
    }
  }
}
