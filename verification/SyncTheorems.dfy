/** Safety of the sync protocol over every run: every sequence of events, of any devices, in any
    interleaving, with lost answers and aborted syncs. */
module SyncTheorems {
  import opened Common
  import opened SyncTypes
  import opened SyncServer
  import opened SyncServerFacts
  import opened SyncClient
  import opened SyncProtocol
  import opened SyncInvariant
  import opened SyncSteps

  ghost predicate DeviceInv(w: World, d: string) {
    DevInv(Account(DevOf(w, d)), DevOf(w, d), StoreOf(w, Account(DevOf(w, d)))) && DevOf(w, d).client.deviceId == d
  }

  /** A device and the store of its account. */
  function PairOf(w: World, d: string): Pair {
    Pair(DevOf(w, d), StoreOf(w, Account(DevOf(w, d))))
  }

  ghost predicate WorldInv(w: World) {
    && (forall a :: StoreInv(a, StoreOf(w, a)))
    && (forall d :: DeviceInv(w, d))
  }

  lemma StepOne(w: World, e: Event)
    requires WorldInv(w)
    ensures var a := Target(w, e); var p := Act(Pair(DevOf(w, e.device), StoreOf(w, a)), e.act);
      && StoreInv(a, p.store) && Extends(StoreOf(w, a), p.store)
      && DevInv(Account(p.dev), p.dev, StoreOf(Step(w, e), Account(p.dev))) && p.dev.client.deviceId == e.device
  {
    var a := Target(w, e);
    var dev := DevOf(w, e.device);
    assert StoreInv(a, StoreOf(w, a)) && DeviceInv(w, e.device);
    var p := Act(Pair(dev, StoreOf(w, a)), e.act);
    if e.act.Start? && !dev.phase.Idle? {
      assert p == Pair(dev, StoreOf(w, a));
      assert StoreOf(Step(w, e), Account(dev)) == StoreOf(w, Account(dev));
    } else {
      ActKeeps(a, Pair(dev, StoreOf(w, a)), e.act);
      assert StoreOf(Step(w, e), a) == p.store;
    }
  }

  lemma StepKeeps(w: World, e: Event)
    requires WorldInv(w)
    ensures WorldInv(Step(w, e))
    ensures forall a :: Extends(StoreOf(w, a), StoreOf(Step(w, e), a))
  {
    var t := Step(w, e);
    StepOne(w, e);
    forall a ensures StoreInv(a, StoreOf(t, a)) && Extends(StoreOf(w, a), StoreOf(t, a)) {
      assert StoreInv(a, StoreOf(w, a));
      assert a != Target(w, e) ==> StoreOf(t, a) == StoreOf(w, a);
    }
    forall d | d != e.device ensures DeviceInv(t, d) {
      assert DeviceInv(w, d) && DevOf(t, d) == DevOf(w, d);
      var a := Account(DevOf(w, d));
      assert StoreInv(a, StoreOf(w, a)) && StoreInv(a, StoreOf(t, a));
      DevInvGrows(a, DevOf(w, d), StoreOf(w, a), StoreOf(t, a));
    }
    assert DeviceInv(t, e.device);
  }

  lemma {:induction false} RunInv(events: seq<Event>)
    ensures WorldInv(Run(events))
  {
    if events == [] {
      EmptyLedger();
    } else {
      RunInv(events[..|events| - 1]);
      StepKeeps(Run(events[..|events| - 1]), events[|events| - 1]);
    }
  }

  /** The device that acts, with the store that it then has, stands where its action leads. */
  lemma StepPair(w: World, e: Event)
    requires WorldInv(w)
    ensures e.act.Start? && !DevOf(w, e.device).phase.Idle? ==> PairOf(Step(w, e), e.device) == PairOf(w, e.device)
    ensures !(e.act.Start? && !DevOf(w, e.device).phase.Idle?) ==>
      PairOf(Step(w, e), e.device) == Act(Pair(DevOf(w, e.device), StoreOf(w, Target(w, e))), e.act)
  {
    var dev := DevOf(w, e.device);
    var a := Target(w, e);
    assert DeviceInv(w, e.device) && StoreInv(a, StoreOf(w, a));
    if e.act.Start? && !dev.phase.Idle? {
      assert StoreOf(Step(w, e), Account(dev)) == StoreOf(w, Account(dev));
    } else {
      ActKeeps(a, Pair(dev, StoreOf(w, a)), e.act);
    }
  }

  /** Every other device keeps its state, and its store only grows. */
  lemma StepOthers(w: World, e: Event, d: string)
    requires WorldInv(w) && d != e.device
    ensures DevOf(Step(w, e), d) == DevOf(w, d)
    ensures var a := Account(DevOf(w, d)); StoreInv(a, StoreOf(w, a)) && StoreInv(a, StoreOf(Step(w, e), a)) && Extends(StoreOf(w, a), StoreOf(Step(w, e), a))
    ensures var a := Account(DevOf(w, d)); DevInv(a, DevOf(w, d), StoreOf(w, a))
  {
    StepKeeps(w, e);
    assert DeviceInv(w, d);
  }

  // ---- history

  /** In every reachable state, what a device remembers of a record is a version the server really
      held under that sequence number (the digest aside when it could not be read), the device is
      never ahead of the server, and the row of a page is never stale for it. */
  lemma RemembersHistory(events: seq<Event>, d: string, id: RecordId)
    requires id in DevOf(Run(events), d).client.sync.records
    ensures var dev := DevOf(Run(events), d); var m := dev.client.sync.records[id]; var s := StoreOf(Run(events), Account(dev));
      && dev.client.sync.accountId.Some?
      && Held(s.log, id, m)
      && id in s.rows && m.revision <= s.rows[id].revision && m.serverSequence <= s.rows[id].serverSequence
      && (m.revision == s.rows[id].revision ==> m.serverSequence == s.rows[id].serverSequence && (m.hash == NoHash || m.hash == s.rows[id].hash))
      && !Stale(dev.client.sync, s.rows[id])
  {
    RunInv(events);
    var w := Run(events);
    var dev := DevOf(w, d);
    var s := StoreOf(w, Account(dev));
    assert DeviceInv(w, d) && StoreInv(Account(dev), s);
    assert Held(s.log, id, dev.client.sync.records[id]);
    CurrentRow(s, id, dev.client.sync.records[id]);
    assert Filed(s.log, s.rows[id], id);
    NeverStale(s, dev.client.sync, s.rows[id]);
  }

  /** A push that would replace a version was built on exactly that version: the same revision and
      sequence number, and the same digest if the device had read it. The server never has to
      reject a first revision. */
  lemma NoBlindOverwrite(events: seq<Event>, d: string, k: nat)
    requires DevOf(Run(events), d).phase.Pushing? && k < |DevOf(Run(events), d).phase.queue|
    ensures var dev := DevOf(Run(events), d); var q := dev.phase.queue[k]; var s := StoreOf(Run(events), Account(dev));
      && !Decide(Find(s.rows, q.record.id), q.record).RejectNewRevision?
      && (q.record.id in s.rows && Decide(Find(s.rows, q.record.id), q.record).WriteIncoming? ==>
            var row := s.rows[q.record.id];
            && q.base.Some?
            && q.base.value.revision == row.revision
            && q.base.value.serverSequence == row.serverSequence
            && (q.base.value.hash == NoHash || q.base.value.hash == row.hash))
  {
    RunInv(events);
    var w := Run(events);
    var dev := DevOf(w, d);
    var s := StoreOf(w, Account(dev));
    var q := dev.phase.queue[k];
    assert DeviceInv(w, d) && StoreInv(Account(dev), s);
    assert QueuedOk(Account(dev), dev.phase.key, d, s.log, q);
    if q.base.Some? {
      CurrentRow(s, q.record.id, q.base.value);
      assert Filed(s.log, s.rows[q.record.id], q.record.id);
    } else if q.record.id in s.rows {
      assert Filed(s.log, s.rows[q.record.id], q.record.id);
    }
  }

  // ---- pulls

  ghost predicate Complete(dev: Dev, s: Store, id: RecordId)
    requires dev.phase.Pulled? || dev.phase.Pushing?
  {
    var pull := dev.phase.pull;
    && pull.sequence <= s.sequence
    && (id in s.rows && pull.since < s.rows[id].serverSequence <= pull.sequence ==>
          && id in dev.client.sync.records
          && dev.client.sync.records[id].serverSequence == s.rows[id].serverSequence
          && dev.client.sync.records[id].revision == s.rows[id].revision)
  }

  lemma CompleteHere(account: string, dev: Dev, s: Store, id: RecordId)
    requires StoreInv(account, s) && DevInv(account, dev, s) && (dev.phase.Pulled? || dev.phase.Pushing?)
    ensures Complete(dev, s, id)
  {
    if id in s.rows && dev.phase.pull.since < s.rows[id].serverSequence <= dev.phase.pull.sequence {
      assert Knows(dev.client.sync.records, s.rows[id], id);
      CurrentRow(s, id, dev.client.sync.records[id]);
    }
  }

  /** A pull that has returned leaves no gap, whatever other devices pushed between its pages: until
      the sync ends, the device knows the current version of every record numbered above the place
      it started from and up to the sequence number the pull returned. */
  lemma PullIsComplete(events: seq<Event>, d: string, id: RecordId)
    requires var ph := DevOf(Run(events), d).phase; ph.Pulled? || ph.Pushing?
    ensures var p := PairOf(Run(events), d); Complete(p.dev, p.store, id)
  {
    RunInv(events);
    var p := PairOf(Run(events), d);
    assert DeviceInv(Run(events), d) && StoreInv(Account(p.dev), p.store);
    CompleteHere(Account(p.dev), p.dev, p.store, id);
  }

  lemma PageAdvances(account: string, p: Pair, newIds: seq<string>, now: pos)
    requires StoreInv(account, p.store) && DevInv(account, p.dev, p.store) && Account(p.dev) == account
    requires p.dev.phase.Pulling? && p.store.wrapped.Some? && Unused(newIds, p) && PULL_BATCH_LIMIT <= |newIds|
    ensures Advances(p, QueryPage(p, newIds, now).dev, |PullSince(p.store, p.dev.phase.next, PULL_BATCH_LIMIT).rows|)
  {
    var ph := p.dev.phase;
    var page := PullSince(p.store, ph.next, PULL_BATCH_LIMIT);
    var key := p.store.wrapped.value.key;
    assert PageOf(p.store, ph.next + 1, PULL_BATCH_LIMIT, page.rows) by { ScanIsPage(p.store, ph.next + 1, PULL_BATCH_LIMIT); }
    PageKeeps(account, p, key, newIds, now);
    var pull := ph.pull.(sequence := Max(ph.pull.sequence, page.sequence));
    AbsorbLearns(account, p, pull, key, page, ph.next, ph.pages, newIds, now);
  }

  ghost predicate Advances(p: Pair, dev: Dev, n: nat)
    requires p.dev.phase.Pulling?
  {
    && n <= PULL_BATCH_LIMIT
    && (n < PULL_BATCH_LIMIT ==> dev.phase.Pulled? && dev.phase.pull.sequence == p.store.sequence)
    && (n == PULL_BATCH_LIMIT && p.dev.phase.pages + 1 < MAX_PULL_PAGES ==> dev.phase.Pulling? && p.dev.phase.next < dev.phase.next)
  }

  /** A page query that ends the pull returns the server's own sequence number, and a full page
      always advances: the error "did not advance" cannot occur. */
  lemma PullAdvances(events: seq<Event>, d: string, newIds: seq<string>, now: pos)
    requires var p := PairOf(Run(events), d);
      p.dev.phase.Pulling? && p.store.wrapped.Some? && Unused(newIds, p) && PULL_BATCH_LIMIT <= |newIds|
    ensures var p := PairOf(Run(events), d);
      Advances(p, QueryPage(p, newIds, now).dev, |PullSince(p.store, p.dev.phase.next, PULL_BATCH_LIMIT).rows|)
  {
    RunInv(events);
    var p := PairOf(Run(events), d);
    assert DeviceInv(Run(events), d) && StoreInv(Account(p.dev), p.store);
    PageAdvances(Account(p.dev), p, newIds, now);
  }

  // ---- the vault key

  /** The vault key that a device of an account works with is the one the server holds wrapped. */
  function WorkingKey(dev: Dev): Option<VaultKey> {
    match dev.phase
    case Pulling(_, key, _, _) => key
    case Pulled(_, key) => Some(key)
    case Pushing(_, key, _, _, _) => Some(key)
    case _ => None
  }

  lemma KeysAgree(events: seq<Event>, d: string, e: string)
    requires var w := Run(events); Account(DevOf(w, d)) == Account(DevOf(w, e))
    requires var w := Run(events); WorkingKey(DevOf(w, d)).Some? && WorkingKey(DevOf(w, e)).Some?
    ensures var w := Run(events);
      && WorkingKey(DevOf(w, d)) == WorkingKey(DevOf(w, e))
      && StoreOf(w, Account(DevOf(w, d))).wrapped == Some(Wrapped(Account(DevOf(w, d)), WorkingKey(DevOf(w, d)).value))
  {
    RunInv(events);
    assert DeviceInv(Run(events), d) && DeviceInv(Run(events), e);
  }

  /** The wrapped key is written once, and no logged write is ever lost or changed. */
  lemma {:induction false} HistoryOnlyGrows(events: seq<Event>, more: seq<Event>, account: string)
    ensures Extends(StoreOf(Run(events), account), StoreOf(Run(events + more), account))
  {
    if more == [] {
      assert events + more == events;
      var s := StoreOf(Run(events), account);
      assert s.log[..|s.log|] == s.log;
    } else {
      var init := more[..|more| - 1];
      HistoryOnlyGrows(events, init, account);
      assert (events + more)[..|events + more| - 1] == events + init;
      RunInv(events + init);
      StepKeeps(Run(events + init), more[|more| - 1]);
      ExtendsTransitive(StoreOf(Run(events), account), StoreOf(Run(events + init), account), StoreOf(Run(events + more), account));
    }
  }

  /** The keys that devices have generated so far. */
  function Candidates(events: seq<Event>): set<VaultKey> {
    set e | e in events && e.act.BootstrapKey? :: e.act.candidate
  }

  ghost predicate KeysGenerated(w: World, keys: set<VaultKey>) {
    && (forall a :: StoreOf(w, a).wrapped.Some? ==> StoreOf(w, a).wrapped.value.key in keys)
    && (forall d :: DevOf(w, d).phase.AwaitingKey? && DevOf(w, d).phase.candidate.Some? ==> DevOf(w, d).phase.candidate.value in keys)
  }

  lemma ActGenerates(p: Pair, act: Action, keys: set<VaultKey>)
    requires p.store.wrapped.Some? ==> p.store.wrapped.value.key in keys
    requires p.dev.phase.AwaitingKey? && p.dev.phase.candidate.Some? ==> p.dev.phase.candidate.value in keys
    requires act.BootstrapKey? ==> act.candidate in keys
    ensures var q := Act(p, act);
      && (q.store.wrapped.Some? ==> q.store.wrapped.value.key in keys)
      && (q.dev.phase.AwaitingKey? && q.dev.phase.candidate.Some? ==> q.dev.phase.candidate.value in keys)
  {
    if act.Push? && p.dev.phase.Pushing? && act.n <= |p.dev.phase.queue| {
      PushKeepsKey(p.store, RecordsOf(p.dev.phase.queue[..act.n]));
    }
  }

  lemma {:induction false} PushKeepsKey(s: Store, batch: seq<Encrypted>)
    ensures PushRecords(s, batch).Some? ==> PushRecords(s, batch).value.store.wrapped == s.wrapped
  {
    if batch != [] { PushKeepsKey(s, batch[..|batch| - 1]); }
  }

  lemma StepGenerates(w: World, e: Event, keys: set<VaultKey>)
    requires KeysGenerated(w, keys) && (e.act.BootstrapKey? ==> e.act.candidate in keys)
    ensures KeysGenerated(Step(w, e), keys)
  {
    var t := Step(w, e);
    ActGenerates(Pair(DevOf(w, e.device), StoreOf(w, Target(w, e))), e.act, keys);
    forall a | StoreOf(t, a).wrapped.Some? ensures StoreOf(t, a).wrapped.value.key in keys {
      assert a != Target(w, e) ==> StoreOf(t, a) == StoreOf(w, a);
    }
    forall d | DevOf(t, d).phase.AwaitingKey? && DevOf(t, d).phase.candidate.Some? ensures DevOf(t, d).phase.candidate.value in keys {
      assert d != e.device ==> DevOf(t, d) == DevOf(w, d);
    }
  }

  /** Every vault key was generated by one of the devices. */
  lemma {:induction false} KeyIsGenerated(events: seq<Event>)
    ensures KeysGenerated(Run(events), Candidates(events))
  {
    if events != [] {
      var init, e := events[..|events| - 1], events[|events| - 1];
      KeyIsGenerated(init);
      assert Candidates(init) <= Candidates(events);
      assert e in events;
      assert KeysGenerated(Run(init), Candidates(events));
      StepGenerates(Run(init), e, Candidates(events));
    }
  }

  // ---- reading back what was pushed

  /** A row of a reachable store opens for a device with the vault key exactly when its payload is
      within bounds and its deletion stamp is the one that was sealed. */
  lemma OpensExactlyWhen(events: seq<Event>, account: string, id: RecordId, key: VaultKey)
    requires var s := StoreOf(Run(events), account); id in s.rows && s.wrapped == Some(Wrapped(account, key))
    ensures var row := StoreOf(Run(events), account).rows[id]; var p := row.box.plain;
      && (Decrypt(key, account, row) == Some(p) <==> ValidPlain(p) && p.deletedAt == row.deletedAt)
      && (Decrypt(key, account, row).None? <==> !(ValidPlain(p) && p.deletedAt == row.deletedAt))
      && p.id == id && row.hash == Hash(p)
  {
    RunInv(events);
    var s := StoreOf(Run(events), account);
    assert StoreInv(account, s);
    var row := s.rows[id];
    assert Filed(s.log, row, id);
    assert SealedFor(account, s.wrapped, s.log[row.serverSequence - 1]);
  }

  /** A deleted record cannot be brought back: a write without a deletion stamp over a deleted row
      leaves a row that no device can open, and any other valid write leaves one that opens. */
  lemma RevivalIsUnreadable(s: Store, key: VaultKey, account: string, deviceId: string, p: Plain)
    requires ValidPlain(p)
    ensures var existing := Find(s.rows, p.id);
      var revision := if existing.Some? then existing.value.revision + 1 else 1;
      var row := Write(s, Encrypt(key, account, deviceId, revision, p)).rows[p.id];
      Decrypt(key, account, row) == (if p.deletedAt.None? && existing.Some? && existing.value.deletedAt.Some? then None else Some(p))
  {
  }
}
