/** What a push seals of the records it lists, and where a pull begins. */
module SyncQueued {
  import opened Common
  import opened Sublists
  import opened SyncTypes
  import opened SyncClient
  import opened SyncProtocol

  // ---- the queue

  /** The version that the device last acknowledged has this very content. */
  predicate OnServer(records: map<RecordId, Meta>, p: Plain) {
    p.id in records && records[p.id].hash == Sha256(p.id, p.body, p.deletedAt)
  }

  /** The record sealed for the account, one revision after the acknowledged one. */
  predicate SealedFor(e: Encrypted, p: Plain, key: VaultKey, account: string, deviceId: string, records: map<RecordId, Meta>) {
    && e.id == p.id && e.deviceId == deviceId && e.deletedAt == p.deletedAt && e.hash == Sha256(p.id, p.body, p.deletedAt)
    && e.box == Sealed(key, Aad(account, p.id, e.revision), p)
    && e.revision == if p.id in records then records[p.id].revision + 1 else 1
  }

  function PlainsOf(queue: seq<Queued>): (plains: seq<Plain>)
    ensures |plains| == |queue| && forall k :: 0 <= k < |queue| ==> plains[k] == queue[k].plain
  {
    seq(|queue|, k requires 0 <= k < |queue| => queue[k].plain)
  }

  /** All but the identifiers that are shown with a version stays as it was. */
  predicate SameVersion(m: Meta, n: Meta) {
    m.revision == n.revision && m.hash == n.hash && m.serverSequence == n.serverSequence && m.deletedAt == n.deletedAt
  }

  ghost predicate VersionsStay(records: map<RecordId, Meta>, after: map<RecordId, Meta>) {
    after.Keys == records.Keys && forall id :: id in records ==> SameVersion(after[id], records[id])
  }

  lemma BuildMore(key: VaultKey, account: string, deviceId: string, records: map<RecordId, Meta>, b: Built, p: Plain)
    requires VersionsStay(records, b.records)
    ensures var c := BuildOne(key, account, deviceId, b, p);
      && VersionsStay(records, c.records)
      && c.queue == (if OnServer(records, p) then b.queue else b.queue + [Enqueue(key, account, deviceId, b.records, p)])
    ensures SealedFor(Enqueue(key, account, deviceId, b.records, p).record, p, key, account, deviceId, records)
    ensures Enqueue(key, account, deviceId, b.records, p).plain == p
  {
  }

  /** The queue holds the listed records at the places `at`, all those whose content is not the
      acknowledged one, each sealed one revision after it. */
  ghost predicate SealsWhatDiffers(list: seq<Plain>, queue: seq<Queued>, at: seq<nat>, key: VaultKey, account: string, deviceId: string, records: map<RecordId, Meta>) {
    && Picks(list, Sparing((p: Plain) => OnServer(records, p)), PlainsOf(queue), at)
    && forall q :: q in queue ==> SealedFor(q.record, q.plain, key, account, deviceId, records)
  }

  lemma QueueSkips(list: seq<Plain>, queue: seq<Queued>, at: seq<nat>, key: VaultKey, account: string, deviceId: string, records: map<RecordId, Meta>) returns (more: seq<nat>)
    requires list != [] && SealsWhatDiffers(list[..|list| - 1], queue, at, key, account, deviceId, records) && OnServer(records, list[|list| - 1])
    ensures SealsWhatDiffers(list, queue, more, key, account, deviceId, records)
  {
    more := PicksLast(list, Sparing((q: Plain) => OnServer(records, q)), PlainsOf(queue), at);
  }

  lemma QueueTakes(list: seq<Plain>, queue: seq<Queued>, e: Queued, at: seq<nat>, key: VaultKey, account: string, deviceId: string, records: map<RecordId, Meta>) returns (more: seq<nat>)
    requires list != [] && SealsWhatDiffers(list[..|list| - 1], queue, at, key, account, deviceId, records) && !OnServer(records, list[|list| - 1])
    requires e.plain == list[|list| - 1] && SealedFor(e.record, e.plain, key, account, deviceId, records)
    ensures SealsWhatDiffers(list, queue + [e], more, key, account, deviceId, records)
  {
    more := PicksLast(list, Sparing((q: Plain) => OnServer(records, q)), PlainsOf(queue), at);
    PlainsMore(queue, e);
  }

  lemma PlainsMore(queue: seq<Queued>, q: Queued)
    ensures PlainsOf(queue + [q]) == PlainsOf(queue) + [q.plain]
  {
  }

  /** A push seals, in the order of the list, exactly the records whose content is not the acknowledged
      one, each one revision after it; the versions it remembers stay as they are. */
  lemma {:induction false} QueueSealsWhatDiffers(key: VaultKey, account: string, deviceId: string, records: map<RecordId, Meta>, list: seq<Plain>)
    returns (at: seq<nat>)
    ensures var b := Build(key, account, deviceId, records, list);
      SealsWhatDiffers(list, b.queue, at, key, account, deviceId, records) && VersionsStay(records, b.records)
  {
    at := [];
    if list != [] {
      var n := |list| - 1;
      at := QueueSealsWhatDiffers(key, account, deviceId, records, list[..n]);
      var b := Build(key, account, deviceId, records, list[..n]);
      BuildMore(key, account, deviceId, records, b, list[n]);
      if OnServer(records, list[n]) {
        at := QueueSkips(list, b.queue, at, key, account, deviceId, records);
      } else {
        at := QueueTakes(list, b.queue, Enqueue(key, account, deviceId, b.records, list[n]), at, key, account, deviceId, records);
      }
    }
  }

  // ---- acknowledgements

  predicate OneEach(accepted: seq<Accepted>) {
    forall i, j :: 0 <= i < j < |accepted| ==> accepted[i].id != accepted[j].id
  }

  /** A deletion that was pushed. */
  predicate Settled(plainById: map<RecordId, Plain>, id: RecordId) {
    id in plainById && plainById[id].deletedAt.Some?
  }

  predicate Acknowledged(accepted: seq<Accepted>, id: RecordId) {
    exists i :: 0 <= i < |accepted| && accepted[i].id == id
  }

  /** The acknowledged version, with the deletion stamp of what was pushed. */
  predicate Remembers(m: Meta, a: Accepted, plainById: map<RecordId, Plain>) {
    && m.revision == a.revision && m.hash == a.hash && m.serverSequence == a.serverSequence
    && m.deletedAt == if a.id in plainById then plainById[a.id].deletedAt else None
  }

  /** Each acknowledgement is remembered as it came, and nothing else changes. */
  ghost predicate AllRemembered(before: map<RecordId, Meta>, after: map<RecordId, Meta>, plainById: map<RecordId, Plain>, accepted: seq<Accepted>) {
    && (forall a :: a in accepted ==> a.id in after && Remembers(after[a.id], a, plainById))
    && (forall id :: !Acknowledged(accepted, id) ==> (id in after <==> id in before) && (id in before ==> after[id] == before[id]))
  }

  /** Each acknowledgement settles the deletion that it was for, and no other. */
  ghost predicate AllSettled(before: map<RecordId, Plain>, after: map<RecordId, Plain>, plainById: map<RecordId, Plain>, accepted: seq<Accepted>) {
    && (forall id :: id in after <==> id in before && !(Acknowledged(accepted, id) && Settled(plainById, id)))
    && (forall id :: id in after ==> after[id] == before[id])
  }

  lemma AcknowledgedMore(accepted: seq<Accepted>, id: RecordId)
    requires accepted != []
    ensures Acknowledged(accepted, id) <==> Acknowledged(accepted[..|accepted| - 1], id) || id == accepted[|accepted| - 1].id
  {
    var n := |accepted| - 1;
    if i :| 0 <= i < n && accepted[i].id == id { assert accepted[..n][i].id == id; }
  }

  lemma RememberOne(before: map<RecordId, Meta>, after: map<RecordId, Meta>, plainById: map<RecordId, Plain>, accepted: seq<Accepted>, m: Meta)
    requires accepted != [] && OneEach(accepted) && AllRemembered(before, after, plainById, accepted[..|accepted| - 1])
    requires Remembers(m, accepted[|accepted| - 1], plainById)
    ensures AllRemembered(before, after[accepted[|accepted| - 1].id := m], plainById, accepted)
  {
    var n := |accepted| - 1;
    var next := after[accepted[n].id := m];
    forall a | a in accepted ensures a.id in next && Remembers(next[a.id], a, plainById) {
      var i :| 0 <= i < |accepted| && accepted[i] == a;
      if i < n { assert accepted[..n][i] == a && a in accepted[..n]; }
    }
    forall id | !Acknowledged(accepted, id) ensures (id in next <==> id in before) && (id in before ==> next[id] == before[id]) {
      AcknowledgedMore(accepted, id);
    }
  }

  lemma SettleOne(before: map<RecordId, Plain>, after: map<RecordId, Plain>, plainById: map<RecordId, Plain>, accepted: seq<Accepted>)
    requires accepted != [] && AllSettled(before, after, plainById, accepted[..|accepted| - 1])
    ensures var id := accepted[|accepted| - 1].id;
      AllSettled(before, if Settled(plainById, id) then after - {id} else after, plainById, accepted)
  {
    var n := |accepted| - 1;
    forall id ensures Acknowledged(accepted, id) <==> Acknowledged(accepted[..n], id) || id == accepted[n].id { AcknowledgedMore(accepted, id); }
  }

  /** Working through the acknowledgements of a push. */
  lemma {:induction false} AcknowledgementsAreRemembered(sync: Sync, plainById: map<RecordId, Plain>, accepted: seq<Accepted>)
    requires OneEach(accepted)
    ensures var after := TakeAllAccepted(sync, plainById, accepted);
      && AllRemembered(sync.records, after.records, plainById, accepted)
      && AllSettled(sync.pendingDeletes, after.pendingDeletes, plainById, accepted)
      && after.accountId == sync.accountId && after.conflictCount == sync.conflictCount && after.serverSequence == sync.serverSequence
  {
    if accepted != [] {
      var n := |accepted| - 1;
      AcknowledgementsAreRemembered(sync, plainById, accepted[..n]);
      var before := TakeAllAccepted(sync, plainById, accepted[..n]);
      var after := TakeAccepted(before, plainById, accepted[n]);
      RememberOne(sync.records, before.records, plainById, accepted, after.records[accepted[n].id]);
      SettleOne(sync.pendingDeletes, before.pendingDeletes, plainById, accepted);
    }
  }

  // ---- where a pull begins

  /** A sync that is asked for all, finds another account or remembers no record pulls from the first
      write on, any other from the cursor. Another account's memory is forgotten, the vault stays. */
  lemma StartPullsFrom(dev: Dev, account: string, full: bool, now: pos)
    requires dev.phase.Idle?
    ensures var was, next := dev.client.sync, StartSync(dev, account, full, now);
      && next.phase.Pulling? && next.client.vault == dev.client.vault && next.client.deviceId == dev.client.deviceId
      && (was.accountId == Some(account) ==> next.client.sync == was)
      && (was.accountId != Some(account) ==> next.client.sync == Sync(Some(account), 0, 0, map[], map[]))
      && next.phase.next == next.phase.pull.since == next.phase.pull.sequence
      && next.phase.next == if full || was.accountId != Some(account) || was.records == map[] then 0 else was.serverSequence
  {
  }
}
