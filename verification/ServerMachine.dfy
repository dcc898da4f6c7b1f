/** The server as an object whose rows its mutations update in place. Each mutation is one
    transaction: it works on copies and commits them at the end, or throws and changes nothing. */
module ServerMachine {
  import opened Common
  import opened SyncTypes
  import opened SyncServer

  class Server {
    var bootstrapped: bool
    var wrapped: Option<Wrapped>
    var sequence: nat
    var rows: map<RecordId, Row>
    var bySequence: map<nat, RecordId>
    var devices: set<string>
    ghost var log: seq<Row>

    ghost function State(): Store
      reads this
    {
      Store(bootstrapped, wrapped, sequence, rows, bySequence, devices, log)
    }

    constructor ()
      ensures State() == EmptyStore
    {
      bootstrapped, wrapped, sequence := false, None, 0;
      rows, bySequence, devices, log := map[], map[], {}, [];
    }

    method BootstrapVault(offered: Option<Wrapped>) returns (key: Option<Wrapped>, needsSetup: bool)
      modifies this
      ensures State() == Bootstrap(old(State()), offered)
      ensures key == State().wrapped && needsSetup == key.None?
    {
      if bootstrapped {
        if wrapped.None? && offered.Some? { wrapped := offered; }
      } else {
        bootstrapped, wrapped, sequence := true, offered, 0;
      }
      key, needsSetup := wrapped, wrapped.None?;
    }

    method RegisterDevice(deviceId: string) returns (ok: bool)
      modifies this
      ensures ok == MayRegister(old(State()), deviceId) && State() == Register(old(State()), deviceId)
    {
      if deviceId in devices {
        assert devices + {deviceId} == devices;
        return true;
      }
      if MAX_DEVICES_PER_IDENTITY <= |devices| { return false; }
      devices := devices + {deviceId};
      ok := true;
    }

    method PullSince(since: nat, limit: nat) returns (page: Page)
      ensures page == SyncServer.PullSince(State(), since, limit)
    {
      var found: seq<Row> := [];
      var n := since + 1;
      while |found| < limit && n <= sequence
        invariant |found| <= limit
        invariant found + Scan(State(), n, limit - |found|) == Scan(State(), since + 1, limit)
        decreases sequence + 1 - n
      {
        if n in bySequence && bySequence[n] in rows {
          assert Scan(State(), n, limit - |found|) == [rows[bySequence[n]]] + Scan(State(), n + 1, limit - |found| - 1);
          found := found + [rows[bySequence[n]]];
        }
        n := n + 1;
      }
      page := Page(wrapped, sequence, found);
    }

    /** `validateEncryptedRecord`, the distinct identifiers and the single device of a batch. */
    static method Validate(batch: seq<Encrypted>) returns (ok: bool)
      requires batch != []
      ensures ok <==> && (forall k :: 0 <= k < |batch| ==> 1 <= batch[k].revision && batch[k].hash.Sha256?)
                      && DistinctIds(batch)
                      && (forall k :: 0 <= k < |batch| ==> batch[k].deviceId == batch[0].deviceId)
    {
      var seen: set<RecordId> := {};
      for i := 0 to |batch|
        invariant forall k :: 0 <= k < i ==> 1 <= batch[k].revision && batch[k].hash.Sha256? && batch[k].deviceId == batch[0].deviceId
        invariant forall j, k :: 0 <= j < k < i ==> batch[j].id != batch[k].id
        invariant forall k :: 0 <= k < i ==> batch[k].id in seen
        invariant forall id :: id in seen ==> exists k :: 0 <= k < i && batch[k].id == id
      {
        if batch[i].revision < 1 || !batch[i].hash.Sha256? || batch[i].id in seen || batch[i].deviceId != batch[0].deviceId {
          return false;
        }
        seen := seen + {batch[i].id};
      }
      ok := true;
    }

    /** One record of a batch, on the working copies. */
    static method PushRecord(ghost s: Store, incoming: Encrypted, last: nat, table: map<RecordId, Row>, index: map<nat, RecordId>,
                             accepted: seq<Accepted>, conflicts: seq<Row>, ghost writes: seq<Row>)
      returns (ok: bool, last': nat, table': map<RecordId, Row>, index': map<nat, RecordId>,
               accepted': seq<Accepted>, conflicts': seq<Row>, ghost writes': seq<Row>)
      ensures PushOne(PushOutcome(s.(sequence := last, rows := table, bySequence := index, log := writes), accepted, conflicts), incoming)
        == if ok then Some(PushOutcome(s.(sequence := last', rows := table', bySequence := index', log := writes'), accepted', conflicts')) else None
    {
      ok, last', table', index', accepted', conflicts', writes' := true, last, table, index, accepted, conflicts, writes;
      var existing := Find(table, incoming.id);
      match Decide(existing, incoming) {
        case RejectNewRevision => ok := false;
        case AcceptExisting => accepted' := accepted + [Acknowledge(existing.value)];
        case ConflictExisting => conflicts' := conflicts + [existing.value];
        case WriteIncoming =>
          last' := last + 1;
          var row := NextRow(existing, incoming, last');
          table', index', writes' := table[row.id := row], Reindex(index, existing, row), writes + [row];
          accepted' := accepted + [Acknowledge(row)];
      }
    }

    /** None is the exception of an aborted transaction. */
    method PushBatch(batch: seq<Encrypted>) returns (answer: Option<(nat, seq<Accepted>, seq<Row>)>)
      modifies this
      ensures match SyncServer.PushBatch(old(State()), batch)
              case None => answer.None? && State() == old(State())
              case Some(o) => answer == Some((o.store.sequence, o.accepted, o.conflicts)) && State() == o.store
    {
      if |batch| < 1 || MAX_PUSH_BATCH_RECORDS < |batch| { return None; }
      var valid := Validate(batch);
      if !valid || batch[0].deviceId !in devices || !bootstrapped { return None; }
      ghost var before := State();
      var last, table, index := sequence, rows, bySequence;
      ghost var writes := log;
      var accepted: seq<Accepted>, conflicts: seq<Row> := [], [];
      for i := 0 to |batch|
        invariant before == old(State())
        invariant Store(bootstrapped, wrapped, sequence, rows, bySequence, devices, log) == before
        invariant PushRecords(before, batch[..i])
          == Some(PushOutcome(Store(bootstrapped, wrapped, last, table, index, devices, writes), accepted, conflicts))
      {
        Unroll(before, batch, i);
        var ok;
        ok, last, table, index, accepted, conflicts, writes :=
          PushRecord(before, batch[i], last, table, index, accepted, conflicts, writes);
        if !ok {
          RejectedBatch(before, batch, i + 1);
          return None;
        }
      }
      assert batch[..|batch|] == batch;
      sequence, rows, bySequence, log := last, table, index, writes;
      answer := Some((last, accepted, conflicts));
    }
  }

  lemma Unroll(s: Store, batch: seq<Encrypted>, i: nat)
    requires i < |batch| && PushRecords(s, batch[..i]).Some?
    ensures PushRecords(s, batch[..i + 1]) == PushOne(PushRecords(s, batch[..i]).value, batch[i])
  {
    assert batch[..i + 1][..i] == batch[..i];
  }

  /** A batch with a rejected prefix is rejected. */
  lemma {:induction false} RejectedBatch(s: Store, batch: seq<Encrypted>, i: nat)
    requires i <= |batch| && PushRecords(s, batch[..i]).None?
    ensures PushRecords(s, batch).None?
  {
    if i < |batch| {
      assert batch[..|batch| - 1][..i] == batch[..i];
      RejectedBatch(s, batch[..|batch| - 1], i);
    } else {
      assert batch[..i] == batch;
    }
  }
}
