/** Counting writes: over every run, an account's sequence number is the sum of its records'
    revisions, a revision is the number of writes its record ever accepted, and no two writes
    were made from the same base. */
module SyncConservation {
  import opened Common
  import opened SyncTypes
  import opened SyncServer
  import opened SyncServerFacts
  import opened SyncProtocol
  import opened SyncInvariant
  import opened SyncTheorems

  /** How many accepted writes a log holds for one record. */
  function Writes(log: seq<Row>, id: RecordId): nat {
    if log == [] then 0
    else Writes(log[..|log| - 1], id) + if log[|log| - 1].id == id then 1 else 0
  }

  function RevisionOf(rows: map<RecordId, Row>, id: RecordId): nat {
    if id in rows then rows[id].revision else 0
  }

  /** Every revision counts the writes of its record up to that moment. */
  ghost predicate Counted(rows: map<RecordId, Row>, log: seq<Row>) {
    && (forall id :: RevisionOf(rows, id) == Writes(log, id))
    && (forall i :: 0 <= i < |log| ==> log[i].revision == Writes(log[..i + 1], log[i].id))
  }

  lemma CountedWrite(s: Store, r: Encrypted)
    requires Counted(s.rows, s.log) && Decide(Find(s.rows, r.id), r).WriteIncoming?
    ensures Counted(Write(s, r).rows, Write(s, r).log)
  {
    var t := Write(s, r);
    var row := t.rows[r.id];
    assert t.log[..|t.log| - 1] == s.log && t.log[|t.log| - 1] == row;
    assert RevisionOf(s.rows, r.id) == Writes(s.log, r.id);
    forall id ensures RevisionOf(t.rows, id) == Writes(t.log, id) {
      assert RevisionOf(s.rows, id) == Writes(s.log, id);
    }
    forall i | 0 <= i < |t.log| ensures t.log[i].revision == Writes(t.log[..i + 1], t.log[i].id) {
      if i < |s.log| {
        assert t.log[..i + 1] == s.log[..i + 1];
      } else {
        assert t.log[..i + 1] == t.log;
      }
    }
  }

  lemma {:induction false} CountedBatch(s: Store, batch: seq<Encrypted>)
    requires Counted(s.rows, s.log) && PushRecords(s, batch).Some?
    ensures Counted(PushRecords(s, batch).value.store.rows, PushRecords(s, batch).value.store.log)
  {
    if batch != [] {
      CountedBatch(s, batch[..|batch| - 1]);
      var o := PushRecords(s, batch[..|batch| - 1]).value;
      var r := batch[|batch| - 1];
      if Decide(Find(o.store.rows, r.id), r).WriteIncoming? { CountedWrite(o.store, r); }
    }
  }

  lemma ActCounts(p: Pair, act: Action)
    requires Counted(p.store.rows, p.store.log)
    ensures Counted(Act(p, act).store.rows, Act(p, act).store.log)
  {
    if act.Push? && p.dev.phase.Pushing? && act.n <= |p.dev.phase.queue| {
      var batch := RecordsOf(p.dev.phase.queue[..act.n]);
      if PushRecords(p.store, batch).Some? { CountedBatch(p.store, batch); }
    }
  }

  ghost predicate AllCounted(w: World) {
    forall a :: Counted(StoreOf(w, a).rows, StoreOf(w, a).log)
  }

  lemma StepCounts(w: World, e: Event)
    requires AllCounted(w)
    ensures AllCounted(Step(w, e))
  {
    var t := Step(w, e);
    forall a ensures Counted(StoreOf(t, a).rows, StoreOf(t, a).log) {
      assert Counted(StoreOf(w, a).rows, StoreOf(w, a).log);
      if a == Target(w, e) { ActCounts(Pair(DevOf(w, e.device), StoreOf(w, a)), e.act); }
    }
  }

  lemma {:induction false} RunCounts(events: seq<Event>)
    ensures AllCounted(Run(events))
  {
    if events != [] {
      RunCounts(events[..|events| - 1]);
      StepCounts(Run(events[..|events| - 1]), events[|events| - 1]);
    }
  }

  // ---- sums

  function SumRevisions(rows: map<RecordId, Row>, ids: seq<RecordId>): nat {
    if ids == [] then 0 else SumRevisions(rows, ids[..|ids| - 1]) + RevisionOf(rows, ids[|ids| - 1])
  }

  function SumWrites(log: seq<Row>, ids: seq<RecordId>): nat {
    if ids == [] then 0 else SumWrites(log, ids[..|ids| - 1]) + Writes(log, ids[|ids| - 1])
  }

  lemma {:induction false} SumsAgree(rows: map<RecordId, Row>, log: seq<Row>, ids: seq<RecordId>)
    requires forall id :: RevisionOf(rows, id) == Writes(log, id)
    ensures SumRevisions(rows, ids) == SumWrites(log, ids)
  {
    if ids != [] { SumsAgree(rows, log, ids[..|ids| - 1]); }
  }

  lemma {:induction false} SumSnoc(log: seq<Row>, row: Row, ids: seq<RecordId>)
    requires Distinct(ids)
    ensures SumWrites(log + [row], ids) == SumWrites(log, ids) + if row.id in ids then 1 else 0
  {
    assert (log + [row])[..|log|] == log;
    if ids != [] {
      var init, last := ids[..|ids| - 1], ids[|ids| - 1];
      SumSnoc(log, row, init);
      assert row.id in ids <==> row.id in init || row.id == last;
      assert last !in init;
    }
  }

  lemma {:induction false} SumIsLength(log: seq<Row>, ids: seq<RecordId>)
    requires Distinct(ids) && forall i :: 0 <= i < |log| ==> log[i].id in ids
    ensures SumWrites(log, ids) == |log|
  {
    if log == [] {
      SumOfNothing(ids);
    } else {
      var init, row := log[..|log| - 1], log[|log| - 1];
      SumIsLength(init, ids);
      SumSnoc(init, row, ids);
      assert init + [row] == log;
    }
  }

  lemma {:induction false} SumOfNothing(ids: seq<RecordId>)
    ensures SumWrites([], ids) == 0
  {
    if ids != [] { SumOfNothing(ids[..|ids| - 1]); }
  }

  /** Conservation: in every reachable state, the vault's sequence number is the number of writes
      ever accepted and the sum of the revisions of its records (in whatever order they are
      listed); each record's revision is the number of its own accepted writes; and the rows'
      sequence numbers are distinct and between 1 and the sequence number. */
  lemma SequenceIsConserved(events: seq<Event>, account: string, ids: seq<RecordId>)
    requires Enumerates(ids, StoreOf(Run(events), account).rows.Keys)
    ensures var s := StoreOf(Run(events), account);
      && s.sequence == |s.log| == SumRevisions(s.rows, ids)
      && (forall id :: id in s.rows ==> s.rows[id].revision == Writes(s.log, id) && 1 <= s.rows[id].serverSequence <= s.sequence)
      && (forall id, id' :: id in s.rows && id' in s.rows && id != id' ==> s.rows[id].serverSequence != s.rows[id'].serverSequence)
  {
    RunInv(events);
    RunCounts(events);
    var s := StoreOf(Run(events), account);
    assert StoreInv(account, s);
    Conserved(s, ids);
  }

  lemma Conserved(s: Store, ids: seq<RecordId>)
    requires Ledger(s) && Counted(s.rows, s.log) && Enumerates(ids, s.rows.Keys)
    ensures s.sequence == |s.log| == SumRevisions(s.rows, ids)
    ensures forall id :: id in s.rows ==> s.rows[id].revision == Writes(s.log, id) && 1 <= s.rows[id].serverSequence <= s.sequence
    ensures forall id, id' :: id in s.rows && id' in s.rows && id != id' ==> s.rows[id].serverSequence != s.rows[id'].serverSequence
  {
    SumsAgree(s.rows, s.log, ids);
    forall i | 0 <= i < |s.log| ensures s.log[i].id in ids {
      assert Covered(s.rows, s.log[i]);
      assert s.log[i].id in Elements(ids);
    }
    SumIsLength(s.log, ids);
    forall id | id in s.rows ensures s.rows[id].revision == Writes(s.log, id) && 1 <= s.rows[id].serverSequence <= s.sequence {
      assert Filed(s.log, s.rows[id], id) && RevisionOf(s.rows, id) == Writes(s.log, id);
    }
  }

  // ---- one winner per base

  lemma {:induction false} WritesGrow(log: seq<Row>, i: nat, id: RecordId)
    requires i <= |log|
    ensures Writes(log[..i], id) <= Writes(log, id)
  {
    if i < |log| {
      var init := log[..|log| - 1];
      WritesGrow(init, i, id);
      assert init[..i] == log[..i];
    } else {
      assert log[..i] == log;
    }
  }

  /** Two accepted writes of one record carry different revisions, in the order they were
      accepted, so two devices never both succeed from the same base; and no revision is skipped. */
  lemma OneWinnerPerBase(events: seq<Event>, account: string, i: nat, j: nat)
    requires var s := StoreOf(Run(events), account); i < j < |s.log| && s.log[i].id == s.log[j].id
    ensures var s := StoreOf(Run(events), account);
      && s.log[i].revision < s.log[j].revision
      && s.log[j].revision == Writes(s.log[..j], s.log[j].id) + 1
  {
    RunCounts(events);
    Winner(StoreOf(Run(events), account).rows, StoreOf(Run(events), account).log, i, j);
  }

  lemma Winner(rows: map<RecordId, Row>, log: seq<Row>, i: nat, j: nat)
    requires Counted(rows, log) && i < j < |log| && log[i].id == log[j].id
    ensures log[i].revision < log[j].revision && log[j].revision == Writes(log[..j], log[j].id) + 1
  {
    var upTo := log[..j + 1];
    assert upTo[..|upTo| - 1] == log[..j] && upTo[|upTo| - 1] == log[j];
    assert log[..j][..i + 1] == log[..i + 1];
    WritesGrow(log[..j], i + 1, log[i].id);
  }
}
