/** What the server keeps over any sequence of calls: the ledger invariant, the numbering of
    writes, and the exact content of a page and of a batch result. */
module SyncServerFacts {
  import opened Common
  import opened SyncTypes
  import opened SyncServer

  /** The store only grows: no logged write is lost and the wrapped key is written once. */
  ghost predicate Extends(s: Store, t: Store) {
    && |s.log| <= |t.log|
    && t.log[..|s.log|] == s.log
    && (s.wrapped.Some? ==> t.wrapped == s.wrapped)
    && (s.bootstrapped ==> t.bootstrapped)
  }

  lemma ExtendsTransitive(s: Store, t: Store, u: Store)
    requires Extends(s, t) && Extends(t, u)
    ensures Extends(s, u)
  {
    assert u.log[..|s.log|] == u.log[..|t.log|][..|s.log|];
  }

  lemma BootstrapFacts(s: Store, offered: Option<Wrapped>)
    requires Ledger(s)
    ensures Ledger(Bootstrap(s, offered)) && Extends(s, Bootstrap(s, offered))
    ensures Bootstrap(s, offered).bootstrapped && Bootstrap(s, offered).wrapped == if s.wrapped.Some? then s.wrapped else offered
    ensures var t := Bootstrap(s, offered); t.rows == s.rows && t.log == s.log && t.sequence == s.sequence && t.devices == s.devices
  {
  }

  lemma RegisterFacts(s: Store, deviceId: string)
    requires Ledger(s)
    ensures Ledger(Register(s, deviceId)) && Extends(s, Register(s, deviceId))
    ensures var t := Register(s, deviceId); t.rows == s.rows && t.log == s.log && t.wrapped == s.wrapped && t.sequence == s.sequence
    ensures deviceId in Register(s, deviceId).devices <==> deviceId in s.devices || |s.devices| < 50
    ensures forall e :: e != deviceId ==> (e in Register(s, deviceId).devices <==> e in s.devices)
  {
  }

  // ---- batches

  lemma OneKeepsLedger(o: PushOutcome, r: Encrypted)
    requires Ledger(o.store) && o.store.bootstrapped && 1 <= r.revision && PushOne(o, r).Some?
    ensures Ledger(PushOne(o, r).value.store) && GrowsByBatch(o.store, PushOne(o, r).value.store)
  {
    if Decide(Find(o.store.rows, r.id), r).WriteIncoming? {
      WriteLedger(o.store, r);
    }
  }

  /** A batch extends the log and touches neither the key nor the devices. */
  ghost predicate GrowsByBatch(s: Store, t: Store) {
    && |s.log| <= |t.log| && t.log[..|s.log|] == s.log
    && t.wrapped == s.wrapped && t.devices == s.devices && t.bootstrapped == s.bootstrapped
  }

  lemma GrowsTransitive(s: Store, t: Store, u: Store)
    requires GrowsByBatch(s, t) && GrowsByBatch(t, u)
    ensures GrowsByBatch(s, u)
  {
    assert u.log[..|s.log|] == u.log[..|t.log|][..|s.log|];
  }

  lemma {:induction false} PushKeepsLedger(s: Store, batch: seq<Encrypted>)
    requires Ledger(s) && s.bootstrapped && (forall k :: 0 <= k < |batch| ==> 1 <= batch[k].revision)
    requires PushRecords(s, batch).Some?
    ensures Ledger(PushRecords(s, batch).value.store) && GrowsByBatch(s, PushRecords(s, batch).value.store)
  {
    if batch != [] {
      var init := batch[..|batch| - 1];
      PushKeepsLedger(s, init);
      var o := PushRecords(s, init).value;
      OneKeepsLedger(o, batch[|batch| - 1]);
      GrowsTransitive(s, o.store, PushRecords(s, batch).value.store);
    }
  }

  lemma {:induction false} PushLeavesOthers(s: Store, batch: seq<Encrypted>, id: RecordId)
    requires PushRecords(s, batch).Some?
    requires forall k :: 0 <= k < |batch| ==> batch[k].id != id
    ensures Find(PushRecords(s, batch).value.store.rows, id) == Find(s.rows, id)
  {
    if batch != [] {
      PushLeavesOthers(s, batch[..|batch| - 1], id);
    }
  }

  /** What became of record `r` of a batch, judged against the rows before the batch: a batch
      names each record once, so the position of `r` does not matter. */
  ghost predicate Settled(s: Store, t: Store, r: Encrypted) {
    && r.id in t.rows
    && (Decide(Find(s.rows, r.id), r).WriteIncoming? ==> Wrote(s, t, r))
    && (!Decide(Find(s.rows, r.id), r).WriteIncoming? ==> r.id in s.rows && t.rows[r.id] == s.rows[r.id])
  }

  ghost predicate Wrote(s: Store, t: Store, r: Encrypted)
    requires r.id in t.rows
  {
    && t.rows[r.id] == NextRow(Find(s.rows, r.id), r, t.rows[r.id].serverSequence)
    && |s.log| < t.rows[r.id].serverSequence <= |t.log| && t.log[t.rows[r.id].serverSequence - 1] == t.rows[r.id]
  }

  ghost predicate Told(t: Store, o: PushOutcome, r: Encrypted, d: Decision)
    requires r.id in t.rows
  {
    if d.ConflictExisting? then t.rows[r.id] in o.conflicts else Acknowledge(t.rows[r.id]) in o.accepted
  }

  lemma OneSettles(s: Store, o: PushOutcome, r: Encrypted)
    requires o.store.sequence == |o.store.log| >= |s.log| && PushOne(o, r).Some?
    requires Find(o.store.rows, r.id) == Find(s.rows, r.id)
    ensures var p := PushOne(o, r).value;
      Settled(s, p.store, r) && Told(p.store, p, r, Decide(Find(s.rows, r.id), r))
  {
    var p := PushOne(o, r).value;
    match Decide(Find(o.store.rows, r.id), r)
    case ConflictExisting => assert p.conflicts[|o.conflicts|] == p.store.rows[r.id];
    case AcceptExisting => assert p.accepted[|o.accepted|] == Acknowledge(p.store.rows[r.id]);
    case WriteIncoming => assert p.accepted[|o.accepted|] == Acknowledge(p.store.rows[r.id]);
  }

  lemma PushOneGrows(o: PushOutcome, r: Encrypted)
    requires PushOne(o, r).Some?
    ensures var p := PushOne(o, r).value;
      && (forall a :: a in o.accepted ==> a in p.accepted)
      && (forall c :: c in o.conflicts ==> c in p.conflicts)
      && (forall i :: 0 <= i < |o.store.log| ==> i < |p.store.log| && p.store.log[i] == o.store.log[i])
      && forall id :: id != r.id ==> Find(p.store.rows, id) == Find(o.store.rows, id)
  {
  }

  lemma SettledStays(s: Store, o: PushOutcome, last: Encrypted, r: Encrypted, d: Decision)
    requires PushOne(o, last).Some? && last.id != r.id
    requires Settled(s, o.store, r) && Told(o.store, o, r, d)
    ensures Settled(s, PushOne(o, last).value.store, r) && Told(PushOne(o, last).value.store, PushOne(o, last).value, r, d)
  {
    PushOneGrows(o, last);
    assert Find(PushOne(o, last).value.store.rows, r.id) == Find(o.store.rows, r.id);
  }

  lemma {:induction false} PushCounts(s: Store, batch: seq<Encrypted>)
    requires PushRecords(s, batch).Some?
    ensures var t := PushRecords(s, batch).value.store; s.sequence <= t.sequence && t.sequence - s.sequence == |t.log| - |s.log|
  {
    if batch != [] { PushCounts(s, batch[..|batch| - 1]); }
  }

  /** Record by record, the outcome of a batch. */
  lemma {:induction false} PushSettles(s: Store, batch: seq<Encrypted>, k: nat)
    requires s.sequence == |s.log| && DistinctIds(batch) && PushRecords(s, batch).Some? && k < |batch|
    ensures var o := PushRecords(s, batch).value; var d := Decide(Find(s.rows, batch[k].id), batch[k]);
      !d.RejectNewRevision? && Settled(s, o.store, batch[k]) && Told(o.store, o, batch[k], d)
  {
    var init, last := batch[..|batch| - 1], batch[|batch| - 1];
    var o := PushRecords(s, init).value;
    PushCounts(s, init);
    if k < |init| {
      PushSettles(s, init, k);
      SettledStays(s, o, last, batch[k], Decide(Find(s.rows, batch[k].id), batch[k]));
    } else {
      PushLeavesOthers(s, init, last.id);
      OneSettles(s, o, last);
    }
  }

  ghost predicate Named(rows: map<RecordId, Row>) {
    forall id :: id in rows ==> rows[id].id == id
  }

  lemma LedgerNamed(s: Store)
    requires Ledger(s)
    ensures Named(s.rows)
  {
    forall id | id in s.rows ensures s.rows[id].id == id { assert Filed(s.log, s.rows[id], id); }
  }

  lemma {:induction false} PushKeepsNamed(s: Store, batch: seq<Encrypted>)
    requires Named(s.rows) && PushRecords(s, batch).Some?
    ensures Named(PushRecords(s, batch).value.store.rows)
  {
    if batch != [] { PushKeepsNamed(s, batch[..|batch| - 1]); }
  }

  /** Every acknowledgement describes the row now stored, with the digest that was pushed. */
  ghost predicate Accepts(t: Store, r: Encrypted, a: Accepted) {
    a.id == r.id && a.hash == r.hash && r.id in t.rows && a == Acknowledge(t.rows[r.id])
  }

  /** Every conflict is the stored row, which the batch did not touch. */
  ghost predicate Refuses(s: Store, t: Store, r: Encrypted, c: Row) {
    && r.id in s.rows && s.rows[r.id] == c && c.id == r.id && r.id in t.rows && t.rows[r.id] == c
    && Decide(Some(c), r).ConflictExisting?
  }

  lemma OneAccepts(s: Store, o: PushOutcome, r: Encrypted, a: Accepted)
    requires Named(o.store.rows) && PushOne(o, r).Some? && a in PushOne(o, r).value.accepted
    ensures a in o.accepted || Accepts(PushOne(o, r).value.store, r, a)
  {
  }

  lemma {:induction false} PushAccepts(s: Store, batch: seq<Encrypted>, a: Accepted) returns (k: nat)
    requires Named(s.rows) && DistinctIds(batch) && PushRecords(s, batch).Some? && a in PushRecords(s, batch).value.accepted
    ensures k < |batch| && Accepts(PushRecords(s, batch).value.store, batch[k], a)
  {
    var init, last := batch[..|batch| - 1], batch[|batch| - 1];
    var o := PushRecords(s, init).value;
    PushKeepsNamed(s, init);
    OneAccepts(s, o, last, a);
    if a in o.accepted {
      k := PushAccepts(s, init, a);
      RowStays(o, last, batch[k].id);
    } else {
      k := |init|;
    }
  }

  lemma RowStays(o: PushOutcome, last: Encrypted, id: RecordId)
    requires PushOne(o, last).Some? && last.id != id && id in o.store.rows
    ensures id in PushOne(o, last).value.store.rows && PushOne(o, last).value.store.rows[id] == o.store.rows[id]
  {
  }

  lemma OneRefuses(s: Store, o: PushOutcome, r: Encrypted, c: Row)
    requires Named(o.store.rows) && PushOne(o, r).Some? && c in PushOne(o, r).value.conflicts
    requires Find(o.store.rows, r.id) == Find(s.rows, r.id)
    ensures c in o.conflicts || Refuses(s, PushOne(o, r).value.store, r, c)
  {
  }

  lemma {:induction false} PushRefuses(s: Store, batch: seq<Encrypted>, c: Row) returns (k: nat)
    requires Named(s.rows) && DistinctIds(batch) && PushRecords(s, batch).Some? && c in PushRecords(s, batch).value.conflicts
    ensures k < |batch| && Refuses(s, PushRecords(s, batch).value.store, batch[k], c)
  {
    var init, last := batch[..|batch| - 1], batch[|batch| - 1];
    var o := PushRecords(s, init).value;
    PushKeepsNamed(s, init);
    PushLeavesOthers(s, init, last.id);
    OneRefuses(s, o, last, c);
    if c in o.conflicts {
      k := PushRefuses(s, init, c);
      RowStays(o, last, batch[k].id);
    } else {
      k := |init|;
    }
  }

  /** The log entry that accepting `r` appends. */
  ghost predicate Logs(r: Encrypted, entry: Row) {
    && entry.id == r.id && entry.revision == r.revision && entry.box == r.box
    && entry.hash == r.hash && entry.deviceId == r.deviceId && (r.deletedAt.Some? ==> entry.deletedAt == r.deletedAt)
  }

  lemma {:induction false} PushLogs(s: Store, batch: seq<Encrypted>, i: nat) returns (k: nat)
    requires PushRecords(s, batch).Some? && |s.log| <= i < |PushRecords(s, batch).value.store.log|
    ensures k < |batch| && Logs(batch[k], PushRecords(s, batch).value.store.log[i])
  {
    var init, last := batch[..|batch| - 1], batch[|batch| - 1];
    var o := PushRecords(s, init).value;
    if i < |o.store.log| {
      k := PushLogs(s, init, i);
    } else {
      k := |init|;
    }
  }

  // ---- pages

  /** `page` holds exactly the rows in sequence order from `n` up to the point where it is full. */
  ghost predicate PageOf(s: Store, n: nat, limit: nat, page: seq<Row>) {
    && |page| <= limit
    && (forall k :: 0 <= k < |page| ==> Listed(s, n, page[k]))
    && (forall j, k :: 0 <= j < k < |page| ==> page[j].serverSequence < page[k].serverSequence)
    && (forall id :: id in s.rows && n <= s.rows[id].serverSequence ==> Delivered(limit, page, s.rows[id]))
  }

  ghost predicate Listed(s: Store, n: nat, row: Row) {
    row.id in s.rows && s.rows[row.id] == row && n <= row.serverSequence
  }

  /** The row is in the page, or the page is full of rows that come before it. */
  ghost predicate Delivered(limit: nat, page: seq<Row>, row: Row) {
    row in page || (|page| == limit && forall k :: 0 <= k < |page| ==> page[k].serverSequence < row.serverSequence)
  }

  lemma PageCons(s: Store, n: nat, limit: nat, row: Row, rest: seq<Row>)
    requires Indexed(s.rows, s.bySequence, s.sequence) && limit > 0 && PageOf(s, n + 1, limit - 1, rest)
    requires Listed(s, n, row) && row.serverSequence == n
    ensures PageOf(s, n, limit, [row] + rest)
  {
    var page := [row] + rest;
    forall k | 0 <= k < |page| ensures Listed(s, n, page[k]) {
      if k > 0 { assert page[k] == rest[k - 1] && Listed(s, n + 1, rest[k - 1]); }
    }
    forall id | id in s.rows && n <= s.rows[id].serverSequence ensures Delivered(limit, page, s.rows[id]) {
      if s.rows[id].serverSequence == n {
        assert s.bySequence[n] == id && s.bySequence[n] == row.id;
        assert page[0] == s.rows[id];
      } else {
        assert Delivered(limit - 1, rest, s.rows[id]);
        if s.rows[id] in rest { assert s.rows[id] in page; }
      }
    }
  }

  lemma {:induction false} ScanIsPage(s: Store, n: nat, limit: nat)
    requires Indexed(s.rows, s.bySequence, s.sequence)
    ensures PageOf(s, n, limit, Scan(s, n, limit))
    decreases s.sequence + 1 - n
  {
    if limit == 0 {
    } else if s.sequence < n {
    } else if n in s.bySequence && s.bySequence[n] in s.rows {
      ScanIsPage(s, n + 1, limit - 1);
      PageCons(s, n, limit, s.rows[s.bySequence[n]], Scan(s, n + 1, limit - 1));
    } else {
      ScanIsPage(s, n + 1, limit);
      var page := Scan(s, n + 1, limit);
      forall k | 0 <= k < |page| ensures Listed(s, n, page[k]) { assert Listed(s, n + 1, page[k]); }
      forall id | id in s.rows && n <= s.rows[id].serverSequence ensures Delivered(limit, page, s.rows[id]) {
        assert s.bySequence[s.rows[id].serverSequence] == id;
      }
    }
  }
}
