/** The cursor that a sync leaves behind. It is sound, so that later pulls may start from it, after
    every sync in whose gap, between the end of its pull and its last push, no other device's write
    landed. */
module SyncCursor {
  import opened Common
  import opened SyncTypes
  import opened SyncServer
  import opened SyncServerFacts
  import opened SyncClient
  import opened SyncProtocol
  import opened SyncInvariant
  import opened SyncSteps
  import opened SyncTheorems
  import opened SyncSurvival
  import opened SyncAgreement
  import opened SyncSolo

  /** The device may ask only for what comes after its cursor. */
  ghost predicate CursorSound(sync: Sync, rows: map<RecordId, Row>) {
    Caught(sync.records, rows, 0, sync.serverSequence)
  }

  /** The pull has asked for its last page and something may still be pushed. */
  predicate InGap(phase: Phase) {
    phase.AwaitingKey? || phase.Pulled? || (phase.Pushing? && phase.queue != [])
  }

  function Reach(phase: Phase): nat
    requires phase.Pushing?
  {
    Max(phase.pull.sequence, phase.sequence)
  }

  /** What a sync that began soundly knows while nothing foreign has landed in its gap. */
  ghost predicate GapInv(p: Pair) {
    var records := p.dev.client.sync.records;
    match p.dev.phase
    case Idle => true
    case Pulling(pull, _, _, _) => Caught(records, p.store.rows, 0, pull.since)
    case AwaitingKey(_, _, _) => p.store.log == []
    case Pulled(pull, _) => InStep(records, p.store.rows) && pull.sequence == |p.store.log|
    case Pushing(_, _, queue, _, _) =>
      && Caught(records, p.store.rows, 0, Reach(p.dev.phase)) && Reach(p.dev.phase) <= |p.store.log|
      && (queue != [] ==> Reach(p.dev.phase) == |p.store.log|)
  }

  lemma JoinCaught(s: Store, records: map<RecordId, Meta>, mid: nat)
    requires Ledger(s) && Caught(records, s.rows, 0, mid) && Caught(records, s.rows, mid, |s.log|)
    ensures InStep(records, s.rows)
  {
    forall id | id in s.rows ensures Knows(records, s.rows[id], id) { assert Filed(s.log, s.rows[id], id); }
  }

  // ---- pulling

  lemma AbsorbKeepsCaught(account: string, p: Pair, pull: Pull, key: VaultKey, page: Page, next: nat, pages: nat, newIds: seq<string>, now: pos, hi: nat)
    requires Ledger(p.store) && AllHeld(p.dev.client.sync.records, p.store.log) && AllCurrent(p.store, page.rows)
    requires |page.rows| <= |newIds| && Account(p.dev) == account && Caught(p.dev.client.sync.records, p.store.rows, 0, hi)
    ensures Caught(Absorb(p, pull, key, page, next, pages, newIds, now).dev.client.sync.records, p.store.rows, 0, hi)
  {
    PullRowsHeld(p.store, WorkOn(p.dev.client, pull), key, account, pull.dirty, page.rows, newIds, now);
    var after := Absorb(p, pull, key, page, next, pages, newIds, now).dev.client.sync.records;
    forall id | id in p.store.rows && 0 < p.store.rows[id].serverSequence <= hi ensures Knows(after, p.store.rows[id], id) {
      assert Knows(p.dev.client.sync.records, p.store.rows[id], id);
    }
  }

  lemma GapPage(account: string, p: Pair, key: VaultKey, newIds: seq<string>, now: pos)
    requires StoreInv(account, p.store) && DevInv(account, p.dev, p.store) && p.dev.client.sync.accountId == Some(account)
    requires p.dev.phase.Pulling? && HasKey(account, key, p.store) && GapInv(p)
    requires |PullSince(p.store, p.dev.phase.next, PULL_BATCH_LIMIT).rows| <= |newIds|
    ensures var ph := p.dev.phase; var page := PullSince(p.store, ph.next, PULL_BATCH_LIMIT);
      GapInv(Absorb(p, ph.pull.(sequence := Max(ph.pull.sequence, page.sequence)), key, page, ph.next, ph.pages, newIds, now))
  {
    var ph := p.dev.phase;
    var page := PullSince(p.store, ph.next, PULL_BATCH_LIMIT);
    var pull := ph.pull.(sequence := Max(ph.pull.sequence, page.sequence));
    var q := Absorb(p, pull, key, page, ph.next, ph.pages, newIds, now);
    assert Caught(q.dev.client.sync.records, p.store.rows, 0, pull.since) by {
      PageReadable(account, p.store, ph.next + 1);
      AbsorbKeepsCaught(account, p, pull, key, page, ph.next, ph.pages, newIds, now, pull.since);
    }
    PageKeeps(account, p, key, newIds, now);
    AbsorbSince(p, pull, key, page, ph.next, ph.pages, newIds, now);
    GapAfterPage(account, q, pull.since);
  }

  lemma GapAfterPage(account: string, q: Pair, since: nat)
    requires StoreInv(account, q.store) && DevInv(account, q.dev, q.store) && q.dev.client.sync.accountId.Some?
    requires Caught(q.dev.client.sync.records, q.store.rows, 0, since)
    requires q.dev.phase.Idle? || q.dev.phase.Pulling? || q.dev.phase.Pulled?
    requires !q.dev.phase.Idle? ==> q.dev.phase.pull.since == since
    requires q.dev.phase.Pulled? ==> q.dev.phase.pull.sequence == |q.store.log|
    ensures GapInv(q)
  {
    if q.dev.phase.Pulled? { JoinCaught(q.store, q.dev.client.sync.records, since); }
  }

  lemma AbsorbSince(p: Pair, pull: Pull, key: VaultKey, page: Page, next: nat, pages: nat, newIds: seq<string>, now: pos)
    requires |page.rows| <= |newIds|
    ensures var q := Absorb(p, pull, key, page, next, pages, newIds, now);
      (q.dev.phase.Idle? || q.dev.phase.Pulling? || q.dev.phase.Pulled?) && (!q.dev.phase.Idle? ==> q.dev.phase.pull.since == pull.since)
  {
  }

  lemma GapQuery(account: string, p: Pair, newIds: seq<string>, now: pos)
    requires StoreInv(account, p.store) && DevInv(account, p.dev, p.store) && GapInv(p) && Account(p.dev) == account
    ensures GapInv(QueryPage(p, newIds, now))
  {
    var ph := p.dev.phase;
    if ph.Pulling? && Unused(newIds, p) {
      var page := PullSince(p.store, ph.next, PULL_BATCH_LIMIT);
      if |page.rows| <= |newIds| {
        if ph.knownKey.Some? {
          GapPage(account, p, ph.knownKey.value, newIds, now);
        } else if page.wrapped.Some? {
          GapPage(account, p, page.wrapped.value.key, newIds, now);
        } else {
          ScanIsPage(p.store, ph.next + 1, PULL_BATCH_LIMIT);
          NoKeyNoRows(account, p.store, ph.next + 1, page.rows);
        }
      }
    }
  }

  lemma GapBootstrap(account: string, p: Pair, candidate: VaultKey, newIds: seq<string>, now: pos, lost: bool)
    requires StoreInv(account, p.store) && DevInv(account, p.dev, p.store) && GapInv(p) && Account(p.dev) == account
    ensures GapInv(BootstrapStep(p, candidate, newIds, now, lost))
  {
    var q := BootstrapStep(p, candidate, newIds, now, lost);
    if p.dev.phase.AwaitingKey? {
      forall id | id in p.store.rows ensures 1 <= |p.store.log| { assert Filed(p.store.log, p.store.rows[id], id); }
      assert q.store.rows == p.store.rows && q.store.log == p.store.log && q.dev.client == p.dev.client;
    }
  }

  // ---- building and pushing

  lemma InStepSame(a: map<RecordId, Meta>, b: map<RecordId, Meta>, rows: map<RecordId, Row>)
    requires SameVersions(a, b) && InStep(a, rows)
    ensures InStep(b, rows)
  {
    forall id | id in rows ensures Knows(b, rows[id], id) { assert Knows(a, rows[id], id) && SameVersion(a[id], b[id]); }
  }

  lemma GapBuild(account: string, p: Pair, pendingOrder: seq<RecordId>, recordOrder: seq<RecordId>, now: pos)
    requires StoreInv(account, p.store) && DevInv(account, p.dev, p.store) && GapInv(p) && Account(p.dev) == account
    ensures GapInv(p.(dev := BuildStep(p.dev, pendingOrder, recordOrder, now)))
  {
    var ph := p.dev.phase;
    var sync := p.dev.client.sync;
    if ph.Pulled? && Enumerates(pendingOrder, sync.pendingDeletes.Keys) && Enumerates(recordOrder, sync.records.Keys) {
      assert forall id :: id in pendingOrder ==> id in Elements(pendingOrder);
      var list := PushList(p.dev.client.vault, sync, pendingOrder, recordOrder, now);
      BuildVersions(ph.key, account, p.dev.client.deviceId, sync.records, list);
      InStepSame(sync.records, Build(ph.key, account, p.dev.client.deviceId, sync.records, list).records, p.store.rows);
    }
  }

  /** What was known up to some earlier number stays known over a push of one's own. */
  lemma PushKeepsCaught(account: string, p: Pair, n: nat, newIds: seq<string>, now: pos, lost: bool, hi: nat)
    requires StoreInv(account, p.store) && DevInv(account, p.dev, p.store) && Account(p.dev) == account
    requires Caught(p.dev.client.sync.records, p.store.rows, 0, hi) && hi <= |p.store.log|
    ensures var q := PushStep(p, n, newIds, now, lost); Caught(q.dev.client.sync.records, q.store.rows, 0, hi)
  {
    var ph := p.dev.phase;
    if ph.Pushing? && n <= |ph.queue| && n != 0 && Unused(newIds, p) && n <= |newIds| {
      var batch := RecordsOf(ph.queue[..n]);
      if PushBatch(p.store, batch).Some? {
        var o := PushBatch(p.store, batch).value;
        PushKeepsLedger(p.store, batch);
        CaughtGrows(p.dev.client.sync.records, p.store, o.store, 0, hi);
        OutcomeHeld(p.store, batch, WorkOn(p.dev.client, ph.pull), ph.key, account, ph.plainById, newIds, now);
        CaughtKnown(o.store, p.dev.client.sync.records,
                    TakeOutcome(WorkOn(p.dev.client, ph.pull), ph.key, account, ph.plainById, o, newIds, now).client.sync.records, 0, hi);
      }
    }
  }

  /** A device in step that pushes is in step with what the push leaves. */
  lemma OutcomeInStep(s: Store, batch: seq<Encrypted>, w: Work, key: VaultKey, account: string, plainById: map<RecordId, Plain>, newIds: seq<string>, now: pos)
    requires Ledger(s) && PushBatch(s, batch).Some? && AllHeld(w.client.sync.records, s.log) && |batch| <= |newIds|
    requires InStep(w.client.sync.records, s.rows)
    ensures var o := PushBatch(s, batch).value; InStep(TakeOutcome(w, key, account, plainById, o, newIds, now).client.sync.records, o.store.rows)
  {
    var o := PushBatch(s, batch).value;
    var after := TakeOutcome(w, key, account, plainById, o, newIds, now).client.sync.records;
    OutcomeHeld(s, batch, w, key, account, plainById, newIds, now);
    forall id | id in o.store.rows ensures Knows(after, o.store.rows[id], id) {
      OneInStep(s, batch, w, key, account, plainById, newIds, now, id);
    }
  }

  lemma OneInStep(s: Store, batch: seq<Encrypted>, w: Work, key: VaultKey, account: string, plainById: map<RecordId, Plain>, newIds: seq<string>, now: pos, id: RecordId)
    requires Ledger(s) && PushBatch(s, batch).Some? && AllHeld(w.client.sync.records, s.log) && |batch| <= |newIds|
    requires InStep(w.client.sync.records, s.rows) && id in PushBatch(s, batch).value.store.rows
    ensures var o := PushBatch(s, batch).value; KnowsRow(o.store, TakeOutcome(w, key, account, plainById, o, newIds, now).client.sync.records, id)
  {
    var o := PushBatch(s, batch).value;
    OutcomeHeld(s, batch, w, key, account, plainById, newIds, now);
    if id in s.rows && o.store.rows[id] == s.rows[id] {
      assert Knows(w.client.sync.records, s.rows[id], id) && KnowsRow(o.store, w.client.sync.records, id);
    } else {
      if forall j :: 0 <= j < |batch| ==> batch[j].id != id { PushLeavesOthers(s, batch, id); }
      var j :| 0 <= j < |batch| && batch[j].id == id;
      PushSettles(s, batch, j);
      AcknowledgedKnown(s, batch, w, key, account, plainById, newIds, now, Acknowledge(o.store.rows[id]));
      LedgerNamed(s);
      PushKeepsNamed(s, batch);
    }
  }

  lemma AcknowledgedKnown(s: Store, batch: seq<Encrypted>, w: Work, key: VaultKey, account: string, plainById: map<RecordId, Plain>, newIds: seq<string>, now: pos, a: Accepted)
    requires Ledger(s) && PushBatch(s, batch).Some? && AllHeld(w.client.sync.records, s.log) && |batch| <= |newIds|
    requires a in PushBatch(s, batch).value.accepted
    ensures var o := PushBatch(s, batch).value; KnowsRow(o.store, TakeOutcome(w, key, account, plainById, o, newIds, now).client.sync.records, a.id)
  {
    var o := PushBatch(s, batch).value;
    PushKeepsLedger(s, batch);
    LedgerNamed(s);
    AllHeldGrows(w.client.sync.records, s, o.store);
    forall k | 0 <= k < |o.accepted| ensures Acknowledged(o.store, o.accepted[k]) {
      var i := PushAccepts(s, batch, o.accepted[k]);
    }
    forall k | 0 <= k < |o.conflicts| ensures Current(o.store, o.conflicts[k]) {
      var i := PushRefuses(s, batch, o.conflicts[k]);
    }
    AcceptedKnown(o.store, w.client.sync, plainById, o.accepted, a);
    AcceptedHeld(o.store, w.client.sync, plainById, o.accepted);
    var mid := w.(client := w.client.(sync := TakeAllAccepted(w.client.sync, plainById, o.accepted)));
    ConflictsHeld(o.store, mid, key, account, plainById, o.conflicts, newIds, now);
  }

  lemma GapPush(account: string, p: Pair, n: nat, newIds: seq<string>, now: pos, lost: bool)
    requires StoreInv(account, p.store) && DevInv(account, p.dev, p.store) && GapInv(p) && Account(p.dev) == account
    ensures GapInv(PushStep(p, n, newIds, now, lost))
  {
    var ph := p.dev.phase;
    if ph.Pushing? && n <= |ph.queue| && n != 0 && Unused(newIds, p) && n <= |newIds| && !lost {
      var batch := RecordsOf(ph.queue[..n]);
      if PushBatch(p.store, batch).Some? {
        var o := PushBatch(p.store, batch).value;
        PushKeepsLedger(p.store, batch);
        PushCounts(p.store, batch);
        JoinCaught(p.store, p.dev.client.sync.records, |p.store.log|);
        OutcomeInStep(p.store, batch, WorkOn(p.dev.client, ph.pull), ph.key, account, ph.plainById, newIds, now);
        var q := PushStep(p, n, newIds, now, lost);
        assert Reach(q.dev.phase) == |q.store.log|;
      }
    }
  }

  lemma GapElse(p: Pair, act: Action)
    requires (act.Edit? || act.RegisterDevice? || act.Finish? || act.Abort?) && GapInv(p)
    ensures GapInv(Act(p, act))
  {
    assert Act(p, act).store.rows == p.store.rows && Act(p, act).store.log == p.store.log;
  }

  lemma GapAct(account: string, p: Pair, act: Action)
    requires StoreInv(account, p.store) && DevInv(account, p.dev, p.store) && GapInv(p) && Account(p.dev) == account && !act.Start?
    ensures GapInv(Act(p, act))
  {
    if act.Query? { GapQuery(account, p, act.newIds, act.now); }
    else if act.BootstrapKey? { GapBootstrap(account, p, act.candidate, act.newIds, act.now, act.lost); }
    else if act.BuildPush? { GapBuild(account, p, act.pendingOrder, act.recordOrder, act.now); }
    else if act.Push? { GapPush(account, p, act.n, act.newIds, act.now, act.lost); }
    else { GapElse(p, act); }
  }

  // ---- the cursor over one step

  lemma CursorAbsorb(account: string, p: Pair, newIds: seq<string>, now: pos, hi: nat)
    requires StoreInv(account, p.store) && DevInv(account, p.dev, p.store) && Account(p.dev) == account
    requires Caught(p.dev.client.sync.records, p.store.rows, 0, hi)
    ensures Caught(QueryPage(p, newIds, now).dev.client.sync.records, p.store.rows, 0, hi)
  {
    var ph := p.dev.phase;
    if ph.Pulling? && Unused(newIds, p) {
      var page := PullSince(p.store, ph.next, PULL_BATCH_LIMIT);
      var pull := ph.pull.(sequence := Max(ph.pull.sequence, page.sequence));
      PageReadable(account, p.store, ph.next + 1);
      var key := if ph.knownKey.Some? then ph.knownKey else if page.wrapped.Some? then Some(page.wrapped.value.key) else None;
      if |page.rows| <= |newIds| && key.Some? {
        AbsorbKeepsCaught(account, p, pull, key.value, page, ph.next, ph.pages, newIds, now, hi);
      }
    }
  }

  lemma CursorBootstrap(account: string, p: Pair, candidate: VaultKey, newIds: seq<string>, now: pos, lost: bool, hi: nat)
    requires DevInv(account, p.dev, p.store) && Account(p.dev) == account && Caught(p.dev.client.sync.records, p.store.rows, 0, hi)
    ensures var q := BootstrapStep(p, candidate, newIds, now, lost); Caught(q.dev.client.sync.records, q.store.rows, 0, hi)
  {
    var q := BootstrapStep(p, candidate, newIds, now, lost);
    if p.dev.phase.AwaitingKey? { assert q.store.rows == p.store.rows && q.dev.client == p.dev.client; }
  }

  lemma CursorBuild(account: string, dev: Dev, pendingOrder: seq<RecordId>, recordOrder: seq<RecordId>, now: pos, rows: map<RecordId, Row>, hi: nat)
    requires Caught(dev.client.sync.records, rows, 0, hi)
    ensures Caught(BuildStep(dev, pendingOrder, recordOrder, now).client.sync.records, rows, 0, hi)
  {
    var ph := dev.phase;
    var sync := dev.client.sync;
    if ph.Pulled? && Enumerates(pendingOrder, sync.pendingDeletes.Keys) && Enumerates(recordOrder, sync.records.Keys) {
      assert forall id :: id in pendingOrder ==> id in Elements(pendingOrder);
      var list := PushList(dev.client.vault, sync, pendingOrder, recordOrder, now);
      BuildVersions(ph.key, Account(dev), dev.client.deviceId, sync.records, list);
      CaughtSame(sync.records, Build(ph.key, Account(dev), dev.client.deviceId, sync.records, list).records, rows, 0, hi);
    }
  }

  lemma CursorElse(p: Pair, act: Action, hi: nat)
    requires act.Edit? || act.RegisterDevice? || act.Finish? || act.Abort?
    requires Caught(p.dev.client.sync.records, p.store.rows, 0, hi)
    ensures Caught(Act(p, act).dev.client.sync.records, Act(p, act).store.rows, 0, hi)
  {
    var q := Act(p, act);
    assert q.store.rows == p.store.rows && q.dev.client.sync.records == p.dev.client.sync.records;
  }

  /** Whatever a device does, what it knew up to some number it goes on knowing. */
  lemma CaughtAct(account: string, p: Pair, act: Action, hi: nat)
    requires StoreInv(account, p.store) && DevInv(account, p.dev, p.store) && Account(p.dev) == account && !act.Start?
    requires Caught(p.dev.client.sync.records, p.store.rows, 0, hi) && hi <= |p.store.log|
    ensures Caught(Act(p, act).dev.client.sync.records, Act(p, act).store.rows, 0, hi)
  {
    if act.Query? { CursorAbsorb(account, p, act.newIds, act.now, hi); }
    else if act.BootstrapKey? { CursorBootstrap(account, p, act.candidate, act.newIds, act.now, act.lost, hi); }
    else if act.BuildPush? { CursorBuild(account, p.dev, act.pendingOrder, act.recordOrder, act.now, p.store.rows, hi); }
    else if act.Push? { PushKeepsCaught(account, p, act.n, act.newIds, act.now, act.lost, hi); }
    else { CursorElse(p, act, hi); }
  }

  // ---- every run

  /** Another device's accepted write lands on the account of `d` while `d` is in its gap. */
  ghost predicate LandsInGap(w: World, e: Event, d: string) {
    var account := Account(DevOf(w, d));
    e.device != d && InGap(DevOf(w, d).phase) && StoreOf(Step(w, e), account).log != StoreOf(w, account).log
  }

  /** What the events say of a device's cursor and of its current sync. The sync is on firm ground if
      it began from scratch or from a firm cursor and nothing foreign has landed in its gap; the
      cursor is firm if the sync that left it was. */
  datatype Firm = Firm(cursor: bool, sync: bool)

  ghost function FirmNext(w: World, e: Event, d: string, f: Firm): Firm {
    var dev := DevOf(w, d);
    if e.device != d then (if LandsInGap(w, e, d) then f.(sync := false) else f)
    else if e.act.Start? && dev.phase.Idle? then
      var cursor := f.cursor || dev.client.sync.accountId != Some(e.act.account);
      Firm(cursor, cursor || StartSync(dev, e.act.account, e.act.full, e.act.now).phase.pull.since == 0)
    else if e.act.Finish? && dev.phase.Pushing? && dev.phase.queue == [] then f.(cursor := f.sync)
    else f
  }

  ghost function FirmAfter(events: seq<Event>, d: string): Firm {
    if events == [] then Firm(true, true)
    else FirmNext(Run(events[..|events| - 1]), events[|events| - 1], d, FirmAfter(events[..|events| - 1], d))
  }

  ghost predicate FirmInv(p: Pair, f: Firm) {
    && (f.cursor ==> CursorSound(p.dev.client.sync, p.store.rows))
    && (f.sync ==> GapInv(p))
  }

  lemma SameLogSameRows(s: Store, t: Store)
    requires Ledger(s) && Ledger(t) && s.log == t.log
    ensures s.rows == t.rows
  {
    assert t.log[..|s.log|] == s.log && s.log[..|t.log|] == t.log;
    forall id | id in t.rows ensures id in s.rows && s.rows[id] == t.rows[id] {
      assert Filed(t.log, t.rows[id], id);
      OldRow(s.rows, s.log, t.rows, t.log, id);
    }
    forall id | id in s.rows ensures id in t.rows {
      assert Filed(s.log, s.rows[id], id);
      OldRow(t.rows, t.log, s.rows, s.log, id);
    }
  }

  /** Outside the gap, and in it without a write, other devices do no harm. */
  lemma GapGrows(account: string, dev: Dev, s: Store, t: Store)
    requires Ledger(s) && Ledger(t) && Extends(s, t) && DevInv(account, dev, s) && GapInv(Pair(dev, s))
    requires InGap(dev.phase) ==> t.log == s.log
    ensures GapInv(Pair(dev, t))
  {
    if InGap(dev.phase) {
      SameLogSameRows(s, t);
    } else {
      var records := dev.client.sync.records;
      match dev.phase
      case Pulling(pull, _, _, _) => CaughtGrows(records, s, t, 0, pull.since);
      case Pushing(_, _, _, _, _) => CaughtGrows(records, s, t, 0, Reach(dev.phase));
      case _ =>
    }
  }

  lemma FirmOthers(w: World, e: Event, d: string, f: Firm)
    requires WorldInv(w) && FirmInv(PairOf(w, d), f) && d != e.device
    ensures FirmInv(PairOf(Step(w, e), d), FirmNext(w, e, d, f))
  {
    StepOthers(w, e, d);
    var dev := DevOf(w, d);
    var a := Account(dev);
    var s, t := StoreOf(w, a), StoreOf(Step(w, e), a);
    if f.cursor { CaughtGrows(dev.client.sync.records, s, t, 0, dev.client.sync.serverSequence); }
    if f.sync && !LandsInGap(w, e, d) { GapGrows(a, dev, s, t); }
  }

  lemma FirmStart(dev: Dev, s: Store, t: Store, account: string, full: bool, now: pos, f: Firm)
    requires dev.phase.Idle? && FirmInv(Pair(dev, s), f) && (dev.client.sync.accountId == Some(account) ==> t == s)
    ensures var d := StartSync(dev, account, full, now); var cursor := f.cursor || dev.client.sync.accountId != Some(account);
      FirmInv(Pair(d, t), Firm(cursor, cursor || d.phase.pull.since == 0))
  {
  }

  lemma FirmAct(account: string, p: Pair, act: Action, f: Firm)
    requires StoreInv(account, p.store) && DevInv(account, p.dev, p.store) && Account(p.dev) == account && !act.Start?
    requires FirmInv(p, f)
    ensures FirmInv(Act(p, act), if act.Finish? && p.dev.phase.Pushing? && p.dev.phase.queue == [] then f.(cursor := f.sync) else f)
  {
    if f.sync { GapAct(account, p, act); }
    if f.cursor && !act.Finish? {
      CaughtAct(account, p, act, p.dev.client.sync.serverSequence);
      ActKeepsCursor(account, p, act);
    }
  }

  lemma ActKeepsCursor(account: string, p: Pair, act: Action)
    requires StoreInv(account, p.store) && DevInv(account, p.dev, p.store) && Account(p.dev) == account && !act.Start? && !act.Finish?
    ensures Act(p, act).dev.client.sync.serverSequence == p.dev.client.sync.serverSequence
  {
    match act
    case Query(newIds, now) => QueryKeeps(account, p, newIds, now);
    case BootstrapKey(candidate, newIds, now, lost) => BootstrapKeeps(account, p, candidate, newIds, now, lost);
    case BuildPush(pendingOrder, recordOrder, now) => BuildStepKeeps(account, p.dev, pendingOrder, recordOrder, now, p.store);
    case Push(n, newIds, now, lost) => PushKeeps(account, p, n, newIds, now, lost);
    case _ =>
  }

  lemma FirmOwn(w: World, e: Event, f: Firm)
    requires WorldInv(w) && FirmInv(PairOf(w, e.device), f)
    ensures FirmInv(PairOf(Step(w, e), e.device), FirmNext(w, e, e.device, f))
  {
    var dev := DevOf(w, e.device);
    var a := Account(dev);
    StepPair(w, e);
    assert StoreInv(a, StoreOf(w, a)) && DeviceInv(w, e.device);
    if !e.act.Start? {
      FirmAct(a, PairOf(w, e.device), e.act, f);
    } else if dev.phase.Idle? {
      FirmStart(dev, StoreOf(w, a), StoreOf(w, e.act.account), e.act.account, e.act.full, e.act.now, f);
    }
  }

  lemma {:induction false} FirmRun(events: seq<Event>, d: string)
    ensures FirmInv(PairOf(Run(events), d), FirmAfter(events, d))
  {
    if events != [] {
      var init, e := events[..|events| - 1], events[|events| - 1];
      FirmRun(init, d);
      RunInv(init);
      if d == e.device { FirmOwn(Run(init), e, FirmAfter(init, d)); } else { FirmOthers(Run(init), e, d, FirmAfter(init, d)); }
    }
  }

  /** In every run, a device whose last finished sync was on firm ground has a sound cursor. */
  lemma FirmCursorIsSound(events: seq<Event>, d: string)
    requires FirmAfter(events, d).cursor
    ensures var p := PairOf(Run(events), d); CursorSound(p.dev.client.sync, p.store.rows)
  {
    FirmRun(events, d);
  }

  /** No other device's write lands in a gap of this device. */
  ghost predicate Undisturbed(events: seq<Event>, d: string) {
    forall i :: 0 <= i < |events| ==> UndisturbedAt(events, i, d)
  }

  ghost predicate UndisturbedAt(events: seq<Event>, i: nat, d: string)
    requires i < |events|
  {
    !LandsInGap(Run(events[..i]), events[i], d)
  }

  lemma UndisturbedBefore(events: seq<Event>, i: nat, d: string)
    requires i < |events| - 1 && UndisturbedAt(events, i, d)
    ensures UndisturbedAt(events[..|events| - 1], i, d)
  {
    assert events[..|events| - 1][..i] == events[..i];
  }

  lemma {:induction false} UndisturbedIsFirm(events: seq<Event>, d: string)
    requires Undisturbed(events, d)
    ensures FirmAfter(events, d) == Firm(true, true)
  {
    if events != [] {
      var n := |events| - 1;
      forall i | 0 <= i < n ensures UndisturbedAt(events[..n], i, d) { UndisturbedBefore(events, i, d); }
      UndisturbedIsFirm(events[..n], d);
      assert UndisturbedAt(events, n, d);
    }
  }

  /** In every run in which no other device's write lands in a gap of this device, between the end of
      one of its pulls and the last push of that sync, the device's cursor is always sound. */
  lemma NoForeignWriteInTheGap(events: seq<Event>, d: string)
    requires Undisturbed(events, d)
    ensures var p := PairOf(Run(events), d); CursorSound(p.dev.client.sync, p.store.rows)
  {
    UndisturbedIsFirm(events, d);
    FirmCursorIsSound(events, d);
  }
}
