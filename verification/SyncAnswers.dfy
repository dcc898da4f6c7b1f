/** What the server answers to a push, told by digests, revisions and rows alone. */
module SyncAnswers {
  import opened Common
  import opened SyncTypes
  import opened SyncServer
  import opened SyncServerFacts

  // ---- when a batch goes through

  /** Every check that a batch has to pass before its records are looked at. */
  predicate Acceptable(s: Store, batch: seq<Encrypted>) {
    && 1 <= |batch| <= 100
    && s.bootstrapped && batch[0].deviceId in s.devices
    && (forall k :: 0 <= k < |batch| ==> batch[k].deviceId == batch[0].deviceId)
    && (forall k :: 0 <= k < |batch| ==> batch[k].revision >= 1 && batch[k].hash != NoHash)
    && (forall j, k :: 0 <= j < k < |batch| ==> batch[j].id != batch[k].id)
  }

  /** The record is new to the server and does not start with its first revision. */
  predicate OutOfNowhere(s: Store, r: Encrypted) {
    r.id !in s.rows && r.revision != 1
  }

  lemma {:induction false} RejectedRecord(s: Store, batch: seq<Encrypted>, k: nat)
    requires DistinctIds(batch) && k < |batch| && OutOfNowhere(s, batch[k])
    ensures PushRecords(s, batch).None?
  {
    var init, last := batch[..|batch| - 1], batch[|batch| - 1];
    if k < |init| {
      RejectedRecord(s, init, k);
    } else if PushRecords(s, init).Some? {
      PushLeavesOthers(s, init, last.id);
    }
  }

  lemma {:induction false} NoRejectedRecord(s: Store, batch: seq<Encrypted>)
    requires DistinctIds(batch) && forall k :: 0 <= k < |batch| ==> !OutOfNowhere(s, batch[k])
    ensures PushRecords(s, batch).Some?
  {
    if batch != [] {
      var init, last := batch[..|batch| - 1], batch[|batch| - 1];
      NoRejectedRecord(s, init);
      PushLeavesOthers(s, init, last.id);
      assert !OutOfNowhere(s, last);
    }
  }

  /** A batch goes through if and only if it passes the checks, which refuse an unregistered device, and
      none of its records comes out of nowhere. */
  lemma BatchGoesThroughExactlyWhen(s: Store, batch: seq<Encrypted>)
    ensures PushBatch(s, batch).Some? <==> Acceptable(s, batch) && forall k :: 0 <= k < |batch| ==> !OutOfNowhere(s, batch[k])
  {
    assert ValidBatch(s, batch) <==> Acceptable(s, batch);
    if ValidBatch(s, batch) {
      if k :| 0 <= k < |batch| && OutOfNowhere(s, batch[k]) { RejectedRecord(s, batch, k); } else { NoRejectedRecord(s, batch); }
    }
  }

  // ---- what becomes of each record

  /** The one acknowledgement of the record, and no conflict for it. */
  ghost predicate AcknowledgedAs(o: PushOutcome, id: RecordId, revision: nat, number: nat, hash: ContentHash) {
    && Accepted(id, revision, number, hash) in o.accepted
    && (forall a :: a in o.accepted && a.id == id ==> a == Accepted(id, revision, number, hash))
    && (forall c :: c in o.conflicts ==> c.id != id)
  }

  /** The row is where it was and nothing was logged for the record. */
  ghost predicate LeftAlone(s: Store, t: Store, id: RecordId) {
    && Find(t.rows, id) == Find(s.rows, id)
    && forall i :: |s.log| <= i < |t.log| ==> t.log[i].id != id
  }

  /** The record was written under a new number, once, with what was pushed. A row that was deleted
      keeps its stamp if the record has none. */
  ghost predicate WrittenAt(s: Store, t: Store, r: Encrypted, number: nat) {
    && |s.log| < number <= |t.log| && r.id in t.rows && t.log[number - 1] == t.rows[r.id]
    && (forall i :: |s.log| <= i < |t.log| && t.log[i].id == r.id ==> i == number - 1)
    && var row := t.rows[r.id];
       && row.id == r.id && row.revision == r.revision && row.serverSequence == number && row.deviceId == r.deviceId
       && row.box == r.box && row.hash == r.hash
       && (if r.deletedAt.Some? then row.deletedAt == r.deletedAt
           else row.deletedAt == if r.id in s.rows then s.rows[r.id].deletedAt else None)
  }

  ghost predicate AnsweredInFull(s: Store, o: PushOutcome, r: Encrypted) {
    if r.id !in s.rows then
      r.revision == 1 && WrittenAndTold(s, o, r)
    else
      var row := s.rows[r.id];
      if row.hash == r.hash then LeftAlone(s, o.store, r.id) && AcknowledgedAs(o, r.id, row.revision, row.serverSequence, row.hash)
      else if r.revision == row.revision + 1 then WrittenAndTold(s, o, r)
      else Refused(s, o, r)
  }

  ghost predicate WrittenAndTold(s: Store, o: PushOutcome, r: Encrypted) {
    exists n :: WrittenAt(s, o.store, r, n) && AcknowledgedAs(o, r.id, r.revision, n, r.hash)
  }

  /** The stored row comes back as the one conflict, and nothing is acknowledged. */
  ghost predicate Refused(s: Store, o: PushOutcome, r: Encrypted) {
    && LeftAlone(s, o.store, r.id) && r.id in s.rows && s.rows[r.id] in o.conflicts
    && (forall c :: c in o.conflicts && c.id == r.id ==> c == s.rows[r.id])
    && (forall a :: a in o.accepted ==> a.id != r.id)
  }

  lemma OneAnswered(s: Store, o: PushOutcome, r: Encrypted)
    requires Ledger(s) && Ledger(o.store) && |s.log| <= |o.store.log| && PushOne(o, r).Some?
    requires LeftAlone(s, o.store, r.id) && Unnamed(o, r.id)
    ensures AnsweredInFull(s, PushOne(o, r).value, r)
  {
    LedgerNamed(s);
    LedgerNamed(o.store);
    var p := PushOne(o, r).value;
    assert Find(o.store.rows, r.id) == Find(s.rows, r.id);
    if r.id in s.rows && s.rows[r.id].hash == r.hash {
      assert p.accepted[|o.accepted|] == Accepted(r.id, s.rows[r.id].revision, s.rows[r.id].serverSequence, r.hash);
    } else if r.id in s.rows && r.revision != s.rows[r.id].revision + 1 {
      assert p.conflicts[|o.conflicts|] == s.rows[r.id];
    } else {
      var n := |o.store.log| + 1;
      assert p.accepted[|o.accepted|] == Accepted(r.id, r.revision, n, r.hash);
      assert WrittenAt(s, p.store, r, n) && AcknowledgedAs(p, r.id, r.revision, n, r.hash);
    }
  }

  ghost predicate Unnamed(o: PushOutcome, id: RecordId) {
    (forall a :: a in o.accepted ==> a.id != id) && (forall c :: c in o.conflicts ==> c.id != id)
  }

  /** What one more record adds to the answer and to the store. */
  ghost predicate OnlyAdds(o: PushOutcome, p: PushOutcome, last: Encrypted) {
    && (forall a :: a in p.accepted ==> a in o.accepted || a.id == last.id)
    && (forall c :: c in p.conflicts ==> c in o.conflicts || c.id == last.id)
    && (forall a :: a in o.accepted ==> a in p.accepted)
    && (forall c :: c in o.conflicts ==> c in p.conflicts)
    && (forall id :: id != last.id ==> Find(p.store.rows, id) == Find(o.store.rows, id))
    && |o.store.log| <= |p.store.log|
    && (forall i :: 0 <= i < |p.store.log| ==> if i < |o.store.log| then p.store.log[i] == o.store.log[i] else p.store.log[i].id == last.id)
  }

  lemma OneOnlyAdds(o: PushOutcome, last: Encrypted)
    requires Ledger(o.store) && PushOne(o, last).Some?
    ensures OnlyAdds(o, PushOne(o, last).value, last)
  {
    LedgerNamed(o.store);
  }

  lemma LeftAloneStays(s: Store, o: PushOutcome, p: PushOutcome, last: Encrypted, id: RecordId)
    requires OnlyAdds(o, p, last) && last.id != id && LeftAlone(s, o.store, id)
    ensures LeftAlone(s, p.store, id)
  {
  }

  lemma WrittenStays(s: Store, o: PushOutcome, p: PushOutcome, last: Encrypted, r: Encrypted, n: nat)
    requires OnlyAdds(o, p, last) && last.id != r.id && WrittenAt(s, o.store, r, n)
    ensures WrittenAt(s, p.store, r, n)
  {
    assert Find(p.store.rows, r.id) == Find(o.store.rows, r.id);
  }

  lemma OneLeavesOthers(s: Store, o: PushOutcome, last: Encrypted, id: RecordId)
    requires Ledger(o.store) && PushOne(o, last).Some? && last.id != id
    requires LeftAlone(s, o.store, id) && Unnamed(o, id)
    ensures var p := PushOne(o, last).value; LeftAlone(s, p.store, id) && Unnamed(p, id)
  {
    OneOnlyAdds(o, last);
    LeftAloneStays(s, o, PushOne(o, last).value, last, id);
  }

  lemma {:induction false} UnnamedStays(s: Store, batch: seq<Encrypted>, id: RecordId)
    requires Ledger(s) && s.bootstrapped && PushRecords(s, batch).Some?
    requires forall k :: 0 <= k < |batch| ==> batch[k].id != id && 1 <= batch[k].revision
    ensures var o := PushRecords(s, batch).value; LeftAlone(s, o.store, id) && Unnamed(o, id)
  {
    if batch != [] {
      var init := batch[..|batch| - 1];
      UnnamedStays(s, init, id);
      PushKeepsLedger(s, init);
      OneLeavesOthers(s, PushRecords(s, init).value, batch[|batch| - 1], id);
    }
  }

  lemma AnswerStays(s: Store, o: PushOutcome, p: PushOutcome, last: Encrypted, r: Encrypted)
    requires OnlyAdds(o, p, last) && last.id != r.id && AnsweredInFull(s, o, r)
    ensures AnsweredInFull(s, p, r)
  {
    if WrittenAndTold(s, o, r) {
      var n :| WrittenAt(s, o.store, r, n) && AcknowledgedAs(o, r.id, r.revision, n, r.hash);
      WrittenStays(s, o, p, last, r, n);
      assert AcknowledgedAs(p, r.id, r.revision, n, r.hash);
    } else {
      LeftAloneStays(s, o, p, last, r.id);
    }
  }

  lemma EarlierAnswered(s: Store, o: PushOutcome, p: PushOutcome, last: Encrypted, r: Encrypted)
    requires Ledger(o.store) && PushOne(o, last) == Some(p) && last.id != r.id && AnsweredInFull(s, o, r)
    ensures AnsweredInFull(s, p, r)
  {
    OneOnlyAdds(o, last);
    AnswerStays(s, o, p, last, r);
  }

  lemma LastAnswered(s: Store, init: seq<Encrypted>, last: Encrypted, p: PushOutcome)
    requires Ledger(s) && s.bootstrapped && PushRecords(s, init).Some? && PushOne(PushRecords(s, init).value, last) == Some(p)
    requires forall k :: 0 <= k < |init| ==> init[k].id != last.id && 1 <= init[k].revision
    ensures AnsweredInFull(s, p, last)
  {
    PushKeepsLedger(s, init);
    UnnamedStays(s, init, last.id);
    OneAnswered(s, PushRecords(s, init).value, last);
  }

  /** The batch was answered for record `r`. */
  ghost predicate BatchAnswers(s: Store, batch: seq<Encrypted>, r: Encrypted) {
    PushRecords(s, batch).Some? && AnsweredInFull(s, PushRecords(s, batch).value, r)
  }

  lemma OneMoreAnswered(s: Store, batch: seq<Encrypted>, r: Encrypted)
    requires Ledger(s) && s.bootstrapped && batch != [] && PushRecords(s, batch).Some?
    requires forall k :: 0 <= k < |batch| ==> 1 <= batch[k].revision
    requires BatchAnswers(s, batch[..|batch| - 1], r) && batch[|batch| - 1].id != r.id
    ensures BatchAnswers(s, batch, r)
  {
    var init := batch[..|batch| - 1];
    PushKeepsLedger(s, init);
    EarlierAnswered(s, PushRecords(s, init).value, PushRecords(s, batch).value, batch[|batch| - 1], r);
  }

  lemma {:induction false} RecordsAnswered(s: Store, batch: seq<Encrypted>, k: nat)
    requires Ledger(s) && s.bootstrapped && DistinctIds(batch) && PushRecords(s, batch).Some? && k < |batch|
    requires forall k :: 0 <= k < |batch| ==> 1 <= batch[k].revision
    ensures BatchAnswers(s, batch, batch[k])
  {
    var n := |batch| - 1;
    if k < n {
      RecordsAnswered(s, batch[..n], k);
      OneMoreAnswered(s, batch, batch[k]);
    } else {
      LastAnswered(s, batch[..n], batch[n], PushRecords(s, batch).value);
    }
  }

  /** Each record of a batch that goes through, against its row before the batch. The stored digest: the
      row is acknowledged as it is, and nothing is written. Another digest: the record is written if its
      revision is the row's next one, and otherwise the row comes back as a conflict. No row: the record
      is written, and its revision is the first. */
  lemma EveryRecordIsAnswered(s: Store, batch: seq<Encrypted>, k: nat)
    requires Ledger(s) && PushBatch(s, batch).Some? && k < |batch|
    ensures AnsweredInFull(s, PushBatch(s, batch).value, batch[k])
  {
    RecordsAnswered(s, batch, k);
    assert BatchAnswers(s, batch, batch[k]);
  }
}
