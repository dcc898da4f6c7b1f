/** Pushing a queue that sits on top of the server's rows: every record is accepted, and everything the
    device holds stays accounted for. */
module SyncSolo {
  import opened Common
  import opened SyncTypes
  import opened SyncServer
  import opened SyncServerFacts
  import opened SyncClient
  import opened SyncProtocol
  import opened SyncVault
  import opened SyncTidy
  import opened SyncInvariant
  import opened SyncSteps
  import opened SyncAgreement

  // ---- accepted pushes

  function AcceptedIds(accepted: seq<Accepted>): set<RecordId> {
    set a | a in accepted :: a.id
  }

  ghost predicate Genuine(plainById: map<RecordId, Plain>, a: Accepted) {
    a.id in plainById && a.hash == Hash(plainById[a.id])
  }

  /** What taking acknowledgements does to one record. */
  ghost predicate Taken(before: Sync, after: Sync, plainById: map<RecordId, Plain>, ids: set<RecordId>, id: RecordId) {
    if id in ids then
      && id in plainById && KnownHash(after.records, id) == Hash(plainById[id])
      && id in after.records && after.records[id].deletedAt == plainById[id].deletedAt
      && BaseIn(after.pendingDeletes, id) == (if plainById[id].deletedAt.Some? then None else BaseIn(before.pendingDeletes, id))
    else
      BaseOf(after.records, id) == BaseOf(before.records, id) && BaseIn(after.pendingDeletes, id) == BaseIn(before.pendingDeletes, id)
  }

  function BaseIn(pending: map<RecordId, Plain>, id: RecordId): Option<Plain> {
    if id in pending then Some(pending[id]) else None
  }

  lemma {:induction false} AcceptedTaken(sync: Sync, plainById: map<RecordId, Plain>, accepted: seq<Accepted>, id: RecordId)
    requires forall k :: 0 <= k < |accepted| ==> Genuine(plainById, accepted[k])
    ensures Taken(sync, TakeAllAccepted(sync, plainById, accepted), plainById, AcceptedIds(accepted), id)
  {
    if accepted != [] {
      var init, a := accepted[..|accepted| - 1], accepted[|accepted| - 1];
      AcceptedTaken(sync, plainById, init, id);
      assert AcceptedIds(accepted) == AcceptedIds(init) + {a.id} by { assert accepted == init + [a]; }
      assert Genuine(plainById, a);
      var mid := TakeAllAccepted(sync, plainById, init);
      TakenOne(mid, plainById, a, id);
    }
  }

  lemma TakenOne(sync: Sync, plainById: map<RecordId, Plain>, a: Accepted, id: RecordId)
    requires Genuine(plainById, a)
    ensures Taken(sync, TakeAccepted(sync, plainById, a), plainById, {a.id}, id)
  {
  }

  lemma {:induction false} AcceptedKnown(t: Store, sync: Sync, plainById: map<RecordId, Plain>, accepted: seq<Accepted>, a: Accepted)
    requires Ledger(t) && AllHeld(sync.records, t.log) && a in accepted
    requires forall k :: 0 <= k < |accepted| ==> Acknowledged(t, accepted[k])
    ensures KnowsRow(t, TakeAllAccepted(sync, plainById, accepted).records, a.id)
  {
    var init, last := accepted[..|accepted| - 1], accepted[|accepted| - 1];
    AcceptedHeld(t, sync, plainById, init);
    AcceptOne(t, TakeAllAccepted(sync, plainById, init), plainById, last);
    if a != last { AcceptedKnown(t, sync, plainById, init, a); }
  }

  // ---- one undisturbed batch

  ghost predicate FromHead(queue: seq<Queued>, n: nat, id: RecordId)
    requires n <= |queue|
  {
    exists j :: 0 <= j < n && queue[j].plain.id == id
  }

  /** Records on top of their current versions are all accepted. */
  lemma NothingRefused(s: Store, queue: seq<Queued>, plainById: map<RecordId, Plain>, n: nat)
    requires Ledger(s) && n <= |queue| && QueueOnTop(s.rows, queue, plainById) && PushBatch(s, RecordsOf(queue[..n])).Some?
    ensures var o := PushBatch(s, RecordsOf(queue[..n])).value;
      && o.conflicts == []
      && (forall k :: 0 <= k < n ==> queue[k].plain.id in AcceptedIds(o.accepted))
      && (forall k :: 0 <= k < |o.accepted| ==> Acknowledged(o.store, o.accepted[k]) && Genuine(plainById, o.accepted[k]))
      && (forall k :: 0 <= k < |o.accepted| ==> FromHead(queue, n, o.accepted[k].id))
  {
    var batch := RecordsOf(queue[..n]);
    var o := PushBatch(s, batch).value;
    LedgerNamed(s);
    forall j | 0 <= j < n ensures !Decide(Find(s.rows, batch[j].id), batch[j]).ConflictExisting? { assert OnTop(s.rows, queue[j]); }
    if o.conflicts != [] {
      var k := PushRefuses(s, batch, o.conflicts[0]);
    }
    forall k | 0 <= k < n ensures queue[k].plain.id in AcceptedIds(o.accepted) {
      PushSettles(s, batch, k);
      assert OnTop(s.rows, queue[k]);
      assert Acknowledge(o.store.rows[batch[k].id]) in o.accepted;
      PushKeepsNamed(s, batch);
    }
    forall k | 0 <= k < |o.accepted|
      ensures Acknowledged(o.store, o.accepted[k]) && Genuine(plainById, o.accepted[k])
      ensures FromHead(queue, n, o.accepted[k].id)
    {
      var j := PushAccepts(s, batch, o.accepted[k]);
      assert OnTop(s.rows, queue[j]);
    }
  }

  lemma TailOnTop(s: Store, queue: seq<Queued>, plainById: map<RecordId, Plain>, n: nat)
    requires n <= |queue| && QueueOnTop(s.rows, queue, plainById) && PushBatch(s, RecordsOf(queue[..n])).Some?
    ensures QueueOnTop(PushBatch(s, RecordsOf(queue[..n])).value.store.rows, queue[n..], plainById)
  {
    var batch := RecordsOf(queue[..n]);
    var t := PushBatch(s, batch).value.store;
    forall k | n <= k < |queue| ensures OnTop(t.rows, queue[k]) {
      assert OnTop(s.rows, queue[k]);
      forall j | 0 <= j < |batch| ensures batch[j].id != queue[k].plain.id { assert OnTop(s.rows, queue[j]); }
      PushLeavesOthers(s, batch, queue[k].plain.id);
    }
  }

  lemma HeadIsAccepted(queue: seq<Queued>, plainById: map<RecordId, Plain>, n: nat, accepted: seq<Accepted>)
    requires QueueFiled(queue, plainById) && n <= |queue|
    requires forall k :: 0 <= k < n ==> queue[k].plain.id in AcceptedIds(accepted)
    requires forall k :: 0 <= k < |accepted| ==> FromHead(queue, n, accepted[k].id)
    ensures HeadIds(queue, plainById, n, AcceptedIds(accepted))
  {
    forall id | id in AcceptedIds(accepted)
      ensures exists j :: 0 <= j < n && queue[j].plain.id == id && id in plainById && plainById[id] == queue[j].plain
    {
      var a :| a in accepted && a.id == id;
      var k :| 0 <= k < |accepted| && accepted[k] == a;
      assert FromHead(queue, n, accepted[k].id);
      var j :| 0 <= j < n && queue[j].plain.id == accepted[k].id;
      assert plainById[id] == queue[j].plain;
    }
  }

  /** Accepting the head of the queue leaves everything placed. */
  lemma BatchPlaces(active: seq<Plain>, sync: Sync, queue: seq<Queued>, plainById: map<RecordId, Plain>, n: nat, accepted: seq<Accepted>)
    requires AllPlaced(active, sync, queue) && HeadIds(queue, plainById, n, AcceptedIds(accepted))
    requires forall k :: 0 <= k < |accepted| ==> Genuine(plainById, accepted[k])
    ensures AllPlaced(active, TakeAllAccepted(sync, plainById, accepted), queue[n..])
  {
    var u := TakeAllAccepted(sync, plainById, accepted);
    var ids := AcceptedIds(accepted);
    forall id ensures Taken(sync, u, plainById, ids, id) { AcceptedTaken(sync, plainById, accepted, id); }
    forall p | p in active ensures Placed(u.records, queue[n..], p) {
      ActivePlaced(active, sync, u, queue, plainById, n, ids, p);
    }
    forall id | id in u.pendingDeletes ensures Tombstone(id, u.pendingDeletes[id]) && Placed(u.records, queue[n..], u.pendingDeletes[id]) {
      PendingPlaced(active, sync, u, queue, plainById, n, ids, id);
      assert Tombstone(id, sync.pendingDeletes[id]);
    }
    forall id | id in u.records ensures Accounted(active, u, queue[n..], id) {
      StillAccounted(active, sync, u, queue, plainById, n, ids, id);
    }
    forall k | 0 <= k < |queue[n..]| ensures FromHere(active, u.pendingDeletes, queue[n..][k].plain) {
      var q := queue[n + k].plain;
      assert FromHere(active, sync.pendingDeletes, q) && Taken(sync, u, plainById, ids, q.id);
    }
  }

  lemma ActivePlaced(active: seq<Plain>, sync: Sync, u: Sync, queue: seq<Queued>, plainById: map<RecordId, Plain>, n: nat, ids: set<RecordId>, p: Plain)
    requires AllPlaced(active, sync, queue) && HeadIds(queue, plainById, n, ids) && Taken(sync, u, plainById, ids, p.id) && p in active
    ensures Placed(u.records, queue[n..], p)
  {
    forall k | 0 <= k < |queue| && queue[k].plain.id == p.id ensures queue[k].plain == p {
      assert FromHere(active, sync.pendingDeletes, queue[k].plain);
    }
    StillPlaced(sync, u, queue, plainById, n, ids, p);
  }

  ghost predicate HeadIds(queue: seq<Queued>, plainById: map<RecordId, Plain>, n: nat, ids: set<RecordId>) {
    && n <= |queue|
    && (forall k :: 0 <= k < n ==> queue[k].plain.id in ids)
    && (forall id :: id in ids ==> exists j :: 0 <= j < n && queue[j].plain.id == id && id in plainById && plainById[id] == queue[j].plain)
  }

  lemma StillPlaced(sync: Sync, u: Sync, queue: seq<Queued>, plainById: map<RecordId, Plain>, n: nat, ids: set<RecordId>, p: Plain)
    requires Placed(sync.records, queue, p) && HeadIds(queue, plainById, n, ids) && Taken(sync, u, plainById, ids, p.id)
    requires forall k :: 0 <= k < |queue| && queue[k].plain.id == p.id ==> queue[k].plain == p
    ensures Placed(u.records, queue[n..], p)
  {
    if p.id !in ids && KnownHash(sync.records, p.id) != Hash(p) {
      var k :| 0 <= k < |queue| && queue[k].plain == p;
      assert queue[n..][k - n].plain == p;
    }
  }

  lemma PendingPlaced(active: seq<Plain>, sync: Sync, u: Sync, queue: seq<Queued>, plainById: map<RecordId, Plain>, n: nat, ids: set<RecordId>, id: RecordId)
    requires AllPlaced(active, sync, queue) && HeadIds(queue, plainById, n, ids) && Taken(sync, u, plainById, ids, id)
    requires id in u.pendingDeletes
    ensures BaseIn(u.pendingDeletes, id) == BaseIn(sync.pendingDeletes, id) && Placed(u.records, queue[n..], u.pendingDeletes[id])
  {
    var p := sync.pendingDeletes[id];
    assert Placed(sync.records, queue, p) && Tombstone(id, p);
    forall k | 0 <= k < |queue| && queue[k].plain.id == p.id ensures queue[k].plain == p {
      assert FromHere(active, sync.pendingDeletes, queue[k].plain);
    }
    StillPlaced(sync, u, queue, plainById, n, ids, p);
  }

  lemma StillAccounted(active: seq<Plain>, sync: Sync, u: Sync, queue: seq<Queued>, plainById: map<RecordId, Plain>, n: nat, ids: set<RecordId>, id: RecordId)
    requires AllPlaced(active, sync, queue) && HeadIds(queue, plainById, n, ids) && Taken(sync, u, plainById, ids, id)
    ensures Accounted(active, u, queue[n..], id)
  {
    if id in ids {
      var j :| 0 <= j < n && queue[j].plain.id == id && id in plainById && plainById[id] == queue[j].plain;
      assert FromHere(active, sync.pendingDeletes, queue[j].plain);
    } else if id in u.records {
      assert id in sync.records && Accounted(active, sync, queue, id);
      if QueuedDelete(queue, id) {
        var k :| 0 <= k < |queue| && queue[k].plain.id == id && queue[k].plain.deletedAt.Some?;
        assert k >= n;
        assert queue[n..][k - n] == queue[k];
      }
    }
  }
}
