/** The sync server of one identity: the vault row, the record rows with their two indexes and
    the registered devices. `log` is a history variable: every row as it was written, in order. */
module SyncServer {
  import opened Common
  import opened SyncTypes

  const MAX_PUSH_BATCH_RECORDS := 100
  const MAX_DEVICES_PER_IDENTITY := 50

  datatype Store = Store(bootstrapped: bool, wrapped: Option<Wrapped>, sequence: nat, rows: map<RecordId, Row>,
                         bySequence: map<nat, RecordId>, devices: set<string>, log: seq<Row>)

  const EmptyStore := Store(false, None, 0, map[], map[], {}, [])

  // ---- convex/syncPolicy.ts

  datatype Decision = AcceptExisting | ConflictExisting | RejectNewRevision | WriteIncoming

  function Decide(existing: Option<Row>, incoming: Encrypted): Decision {
    if existing.None? then
      if incoming.revision == 1 then WriteIncoming else RejectNewRevision
    else if existing.value.hash == incoming.hash then AcceptExisting
    else if incoming.revision > existing.value.revision + 1 || existing.value.revision >= incoming.revision then ConflictExisting
    else WriteIncoming
  }

  function Find(rows: map<RecordId, Row>, id: RecordId): Option<Row> {
    if id in rows then Some(rows[id]) else None
  }

  // ---- convex/sync.ts: bootstrapVault, registerDevice

  function Bootstrap(s: Store, offered: Option<Wrapped>): Store {
    if s.bootstrapped then
      if s.wrapped.None? && offered.Some? then s.(wrapped := offered) else s
    else s.(bootstrapped := true, wrapped := offered, sequence := 0)
  }

  predicate MayRegister(s: Store, deviceId: string) {
    deviceId in s.devices || |s.devices| < MAX_DEVICES_PER_IDENTITY
  }

  function Register(s: Store, deviceId: string): Store {
    if MayRegister(s, deviceId) then s.(devices := s.devices + {deviceId}) else s
  }

  // ---- convex/sync.ts: pullSince

  datatype Page = Page(wrapped: Option<Wrapped>, sequence: nat, rows: seq<Row>)

  /** The rows with sequence number `n` or more, ascending, at most `limit` of them. */
  function Scan(s: Store, n: nat, limit: nat): seq<Row>
    decreases s.sequence + 1 - n
  {
    if limit == 0 || s.sequence < n then []
    else if n in s.bySequence && s.bySequence[n] in s.rows then
      [s.rows[s.bySequence[n]]] + Scan(s, n + 1, limit - 1)
    else Scan(s, n + 1, limit)
  }

  lemma {:induction false} ScanBound(s: Store, n: nat, limit: nat)
    ensures |Scan(s, n, limit)| <= limit
    decreases s.sequence + 1 - n
  {
    if limit != 0 && n <= s.sequence {
      if n in s.bySequence && s.bySequence[n] in s.rows { ScanBound(s, n + 1, limit - 1); } else { ScanBound(s, n + 1, limit); }
    }
  }

  function PullSince(s: Store, since: nat, limit: nat): Page {
    Page(s.wrapped, s.sequence, Scan(s, since + 1, limit))
  }

  // ---- convex/sync.ts: pushBatch

  datatype PushOutcome = PushOutcome(store: Store, accepted: seq<Accepted>, conflicts: seq<Row>)

  /** A patched row keeps its deletion stamp when the incoming record carries none. */
  function NextRow(existing: Option<Row>, incoming: Encrypted, sequence: nat): Row {
    Row(incoming.id, incoming.revision, sequence, incoming.deviceId,
        if incoming.deletedAt.None? && existing.Some? then existing.value.deletedAt else incoming.deletedAt,
        incoming.box, incoming.hash)
  }

  /** The index entry moves with the row. */
  function Reindex(index: map<nat, RecordId>, existing: Option<Row>, row: Row): map<nat, RecordId> {
    (if existing.Some? then index - {existing.value.serverSequence} else index)[row.serverSequence := row.id]
  }

  function Write(s: Store, incoming: Encrypted): Store {
    var existing := Find(s.rows, incoming.id);
    var row := NextRow(existing, incoming, s.sequence + 1);
    s.(sequence := s.sequence + 1, rows := s.rows[row.id := row],
       bySequence := Reindex(s.bySequence, existing, row), log := s.log + [row])
  }

  function Acknowledge(row: Row): Accepted {
    Accepted(row.id, row.revision, row.serverSequence, row.hash)
  }

  /** One record of a batch; None is the exception that aborts the whole mutation. */
  function PushOne(o: PushOutcome, incoming: Encrypted): Option<PushOutcome> {
    var existing := Find(o.store.rows, incoming.id);
    match Decide(existing, incoming)
    case RejectNewRevision => None
    case AcceptExisting => Some(o.(accepted := o.accepted + [Acknowledge(existing.value)]))
    case ConflictExisting => Some(o.(conflicts := o.conflicts + [existing.value]))
    case WriteIncoming =>
      var s := Write(o.store, incoming);
      Some(PushOutcome(s, o.accepted + [Acknowledge(s.rows[incoming.id])], o.conflicts))
  }

  function PushRecords(s: Store, batch: seq<Encrypted>): (r: Option<PushOutcome>)
    ensures r.Some? ==> |r.value.accepted| + |r.value.conflicts| == |batch|
  {
    if batch == [] then Some(PushOutcome(s, [], []))
    else
      match PushRecords(s, batch[..|batch| - 1])
      case None => None
      case Some(o) => PushOne(o, batch[|batch| - 1])
  }

  predicate DistinctIds(batch: seq<Encrypted>) {
    forall i, j :: 0 <= i < j < |batch| ==> batch[i].id != batch[j].id
  }

  predicate ValidBatch(s: Store, batch: seq<Encrypted>) {
    && 1 <= |batch| <= MAX_PUSH_BATCH_RECORDS
    && (forall k :: 0 <= k < |batch| ==> 1 <= batch[k].revision && batch[k].hash.Sha256?)
    && DistinctIds(batch)
    && (forall k :: 0 <= k < |batch| ==> batch[k].deviceId == batch[0].deviceId)
    && batch[0].deviceId in s.devices
    && s.bootstrapped
  }

  function PushBatch(s: Store, batch: seq<Encrypted>): Option<PushOutcome> {
    if ValidBatch(s, batch) then PushRecords(s, batch) else None
  }

  // ---- the table is the replay of its own log

  /** Rows, index and sequence number all agree with the log of accepted writes. */
  ghost predicate Ledger(s: Store) {
    && Booked(s.rows, s.sequence, s.log)
    && Indexed(s.rows, s.bySequence, s.sequence)
    && (!s.bootstrapped ==> s.wrapped.None? && s.log == [])
  }

  ghost predicate Booked(rows: map<RecordId, Row>, sequence: nat, log: seq<Row>) {
    && sequence == |log|
    && (forall i :: 0 <= i < |log| ==> log[i].serverSequence == i + 1)
    && (forall id :: id in rows ==> Filed(log, rows[id], id))
    && (forall i :: 0 <= i < |log| ==> Covered(rows, log[i]))
  }

  ghost predicate Filed(log: seq<Row>, row: Row, id: RecordId) {
    row.id == id && 1 <= row.serverSequence <= |log| && log[row.serverSequence - 1] == row && 1 <= row.revision
  }

  /** Every logged write is the current row of its record or an older revision of it. */
  ghost predicate Covered(rows: map<RecordId, Row>, entry: Row) {
    && entry.id in rows
    && var row := rows[entry.id];
       entry == row || (entry.serverSequence < row.serverSequence && entry.revision < row.revision)
  }

  /** The index `by_identity_sequence` lists every row under its own number. */
  ghost predicate Indexed(rows: map<RecordId, Row>, bySequence: map<nat, RecordId>, sequence: nat) {
    && (forall n :: n in bySequence ==> bySequence[n] in rows && rows[bySequence[n]].serverSequence == n)
    && (forall id :: id in rows ==> && rows[id].id == id
                                    && rows[id].serverSequence <= sequence
                                    && rows[id].serverSequence in bySequence
                                    && bySequence[rows[id].serverSequence] == id)
  }

  lemma EmptyLedger()
    ensures Ledger(EmptyStore)
  {
  }

  lemma WriteLedger(s: Store, incoming: Encrypted)
    requires Ledger(s) && s.bootstrapped && 1 <= incoming.revision
    requires Decide(Find(s.rows, incoming.id), incoming).WriteIncoming?
    ensures Ledger(Write(s, incoming))
  {
    var t := Write(s, incoming);
    var row := t.rows[incoming.id];
    assert t.log[|s.log|] == row;
    forall id | id in t.rows ensures Filed(t.log, t.rows[id], id) {
      if id != incoming.id {
        assert Filed(s.log, s.rows[id], id);
      }
    }
    forall i | 0 <= i < |t.log| ensures Covered(t.rows, t.log[i]) {
      if i < |s.log| {
        assert t.log[i] == s.log[i] && Covered(s.rows, s.log[i]);
      }
    }
    WriteIndexed(s, incoming);
  }

  lemma WriteIndexed(s: Store, incoming: Encrypted)
    requires Indexed(s.rows, s.bySequence, s.sequence)
    ensures var t := Write(s, incoming); Indexed(t.rows, t.bySequence, t.sequence)
  {
  }
}
