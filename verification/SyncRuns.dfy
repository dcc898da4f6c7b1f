/** Agreement and quiescence as statements about runs of all devices. */
module SyncRuns {
  import opened Common
  import opened SyncTypes
  import opened SyncClient
  import opened SyncProtocol
  import opened SyncInvariant
  import opened SyncSteps
  import opened SyncTheorems
  import opened SyncSurvival
  import opened SyncCursor
  import opened SyncProper
  import opened SyncQuiet

  /** The same device acts again and again. */
  function EventsOf(d: string, acts: seq<Action>): (events: seq<Event>)
    ensures |events| == |acts| && forall i :: 0 <= i < |acts| ==> events[i] == Event(d, acts[i])
  {
    seq(|acts|, i requires 0 <= i < |acts| => Event(d, acts[i]))
  }

  predicate OnAccount(acts: seq<Action>, account: string) {
    forall k :: 0 <= k < |acts| ==> acts[k].Start? ==> acts[k].account == account
  }

  lemma StepOfDevice(w: World, d: string, account: string, act: Action)
    requires WorldInv(w) && DevOf(w, d).client.sync.accountId == Some(account) && (act.Start? ==> act.account == account)
    ensures PairOf(Step(w, Event(d, act)), d) == Act(PairOf(w, d), act)
    ensures DevOf(Step(w, Event(d, act)), d).client.sync.accountId == Some(account)
  {
    var p := PairOf(w, d);
    assert DeviceInv(w, d) && StoreInv(account, StoreOf(w, account));
    if act.Start? && !p.dev.phase.Idle? {
      assert Act(p, act) == p;
    } else {
      ActKeeps(account, p, act);
    }
  }

  lemma RunSnoc(events: seq<Event>, e: Event)
    ensures Run(events + [e]) == Step(Run(events), e)
  {
    assert (events + [e])[..|events|] == events;
  }

  lemma RunThenAct(events: seq<Event>, d: string, account: string, act: Action)
    requires DevOf(Run(events), d).client.sync.accountId == Some(account) && (act.Start? ==> act.account == account)
    ensures PairOf(Run(events + [Event(d, act)]), d) == Act(PairOf(Run(events), d), act)
    ensures DevOf(Run(events + [Event(d, act)]), d).client.sync.accountId == Some(account)
  {
    RunSnoc(events, Event(d, act));
    RunInv(events);
    StepOfDevice(Run(events), d, account, act);
  }

  ghost function ActAll(p: Pair, acts: seq<Action>): Pair {
    if acts == [] then p else Act(ActAll(p, acts[..|acts| - 1]), acts[|acts| - 1])
  }

  lemma ActAllSnoc(p: Pair, acts: seq<Action>)
    requires acts != []
    ensures ActAll(p, acts) == Act(ActAll(p, acts[..|acts| - 1]), acts[|acts| - 1])
  {
  }

  /** After these events the device stands where its own actions lead. */
  ghost predicate Follows(events: seq<Event>, d: string, account: string, acts: seq<Action>) {
    var w := Run(events + EventsOf(d, acts));
    PairOf(w, d) == ActAll(PairOf(Run(events), d), acts) && DevOf(w, d).client.sync.accountId == Some(account)
  }

  lemma FollowsOne(events: seq<Event>, d: string, account: string, acts: seq<Action>)
    requires acts != [] && OnAccount(acts, account) && Follows(events, d, account, acts[..|acts| - 1])
    ensures Follows(events, d, account, acts)
  {
    var n := |acts| - 1;
    var init := events + EventsOf(d, acts[..n]);
    assert events + EventsOf(d, acts) == init + [Event(d, acts[n])];
    RunThenAct(init, d, account, acts[n]);
    ActAllSnoc(PairOf(Run(events), d), acts);
  }

  /** The run of one device on its account is the run of its pair. */
  lemma {:induction false} RunOfDevice(events: seq<Event>, d: string, account: string, acts: seq<Action>)
    requires DevOf(Run(events), d).client.sync.accountId == Some(account) && OnAccount(acts, account)
    ensures Follows(events, d, account, acts)
  {
    if acts == [] {
      assert events + EventsOf(d, acts) == events;
    } else {
      RunOfDevice(events, d, account, acts[..|acts| - 1]);
      FollowsOne(events, d, account, acts);
    }
  }

  // ---- agreement

  /** Agreement in every run. Take any events of any devices in which this device's own edits are
      proper and its current sync is on firm ground: it began from scratch or from a firm cursor, and
      no other device's write has landed in its gap. When it gets through its queue and finishes, its
      cursor is sound; up to the cursor it remembers every row of the server, with its digest unless
      the row could not be opened now or was not when the sync began; and all it holds, deletions
      included, is on the server, except for what somebody replaced after its last push. If nobody
      did, it is quiet. Without failures, and with all digests known at the start, all are known. */
  lemma AgreementInEveryRun(events: seq<Event>, d: string, t: pos)
    requires ProperEdits(events, d) && FirmAfter(events, d).sync
    requires var ph := DevOf(Run(events), d).phase; ph.Pushing? && ph.queue == []
    ensures var pull := DevOf(Run(events), d).phase.pull; var f := PairOf(Step(Run(events), Event(d, Finish)), d);
      && f.dev.phase.Idle? && CursorSound(f.dev.client.sync, f.store.rows)
      && Agrees(f, pull.past.blank + pull.past.unread, t)
      && (pull.failures == 0 && pull.past.blank == {} ==> Agrees(f, {}, t))
      && (f.dev.client.sync.serverSequence == |f.store.log| ==> Quiet(f))
  {
    var q := PairOf(Run(events), d);
    FirmPair(events, d);
    FinishAgrees(Account(q.dev), q, t);
    FinishEvent(events, d);
    NothingUnread(q.dev, q.store.rows);
  }

  /** Everything known of a proper device on firm ground. */
  lemma FirmPair(events: seq<Event>, d: string)
    requires ProperEdits(events, d) && FirmAfter(events, d).sync
    ensures var q := PairOf(Run(events), d); var account := Account(q.dev);
      && StoreInv(account, q.store) && DevInv(account, q.dev, q.store) && EditsInv(q.dev, q.store.rows)
      && GapInv(q) && ProperInv(q.dev) && PlacedInv(q)
  {
    RunInv(events);
    RunEdits(events);
    FirmRun(events, d);
    ProperRun(events, d);
    PlacedRun(events, d);
    assert DeviceInv(Run(events), d) && StoreInv(Account(DevOf(Run(events), d)), PairOf(Run(events), d).store) && DeviceEdits(Run(events), d);
  }

  lemma FinishEvent(events: seq<Event>, d: string)
    ensures var q := PairOf(Run(events), d); PairOf(Step(Run(events), Event(d, Finish)), d) == Pair(FinishStep(q.dev), q.store)
  {
    RunInv(events);
    StepPair(Run(events), Event(d, Finish));
  }

  lemma NothingUnread(dev: Dev, rows: map<RecordId, Row>)
    requires dev.phase.Pushing? && EditsInv(dev, rows)
    ensures var pull := dev.phase.pull; pull.failures == 0 && pull.past.blank == {} ==> pull.past.blank + pull.past.unread == {}
  {
  }

  /** The same for runs in which no other device's write ever lands in a gap of this device. */
  lemma AgreementWithoutDisturbance(events: seq<Event>, d: string, t: pos)
    requires ProperEdits(events, d) && Undisturbed(events, d)
    requires var ph := DevOf(Run(events), d).phase; ph.Pushing? && ph.queue == []
    ensures var pull := DevOf(Run(events), d).phase.pull; var f := PairOf(Step(Run(events), Event(d, Finish)), d);
      && CursorSound(f.dev.client.sync, f.store.rows) && Agrees(f, pull.past.blank + pull.past.unread, t)
      && (f.dev.client.sync.serverSequence == |f.store.log| ==> Quiet(f))
  {
    UndisturbedIsFirm(events, d);
    AgreementInEveryRun(events, d, t);
  }

  // ---- quiescence

  lemma ActAllInTurn(p: Pair, a: Action, b: Action, c: Action, e: Action)
    ensures ActAll(p, [a, b, c, e]) == Act(Act(Act(Act(p, a), b), c), e)
  {
    assert [a, b, c, e][..3] == [a, b, c] && [a, b, c][..2] == [a, b] && [a, b][..1] == [a] && [a][..0] == [];
    assert ActAll(p, [a]) == Act(p, a);
    assert ActAll(p, [a, b]) == Act(Act(p, a), b);
    assert ActAll(p, [a, b, c]) == Act(Act(Act(p, a), b), c);
  }

  /** The four steps as one expression. */
  lemma FourActs(f: Pair, account: string, now: pos, newIds: seq<string>, t: pos, pendingOrder: seq<RecordId>, recordOrder: seq<RecordId>, t': pos)
    ensures Act(Act(Act(Act(f, Start(account, false, now)), Query(newIds, t)), BuildPush(pendingOrder, recordOrder, t')), Finish)
         == var q := QueryPage(Pair(StartSync(f.dev, account, false, now), f.store), newIds, t);
            Pair(FinishStep(BuildStep(q.dev, pendingOrder, recordOrder, t')), q.store)
  {
    var started := Pair(StartSync(f.dev, account, false, now), f.store);
    ActIsStep(f, Start(account, false, now), started);
    var pulled := QueryPage(started, newIds, t);
    ActIsStep(started, Query(newIds, t), pulled);
    var built := Pair(BuildStep(pulled.dev, pendingOrder, recordOrder, t'), pulled.store);
    ActIsStep(pulled, BuildPush(pendingOrder, recordOrder, t'), built);
    ActIsStep(built, Finish, Pair(FinishStep(built.dev), built.store));
  }

  lemma ActIsStep(p: Pair, act: Action, q: Pair)
    requires match act
             case Start(account, full, now) => q == Pair(StartSync(p.dev, account, full, now), p.store)
             case Query(newIds, now) => q == QueryPage(p, newIds, now)
             case BuildPush(pendingOrder, recordOrder, now) => q == Pair(BuildStep(p.dev, pendingOrder, recordOrder, now), p.store)
             case Finish => q == Pair(FinishStep(p.dev), p.store)
             case _ => false
    ensures Act(p, act) == q
  {
  }

  lemma FinishEnds(dev: Dev)
    requires dev.phase.Pushing? && dev.phase.queue == []
    ensures FinishStep(dev).phase.Idle? && FinishStep(dev).client.vault == dev.client.vault
  {
  }

  lemma QuietActs(account: string, f: Pair, now: pos, newIds: seq<string>, t: pos, pendingOrder: seq<RecordId>, recordOrder: seq<RecordId>, t': pos)
    requires Quiet(f) && DevInv(account, f.dev, f.store) && StoreInv(account, f.store) && f.dev.client.sync.accountId == Some(account)
    requires Unused(newIds, f)
    requires Enumerates(pendingOrder, f.dev.client.sync.pendingDeletes.Keys) && Enumerates(recordOrder, f.dev.client.sync.records.Keys)
    ensures var q := Act(Act(Act(Act(f, Start(account, false, now)), Query(newIds, t)), BuildPush(pendingOrder, recordOrder, t')), Finish);
      && Quiet(q) && q.store == f.store && q.dev.client.vault == f.dev.client.vault
      && q.dev.client.sync.serverSequence == f.dev.client.sync.serverSequence
  {
    SecondSyncIsIdle(account, f, now, newIds, t, pendingOrder, recordOrder, t');
    FourActs(f, account, now, newIds, t, pendingOrder, recordOrder, t');
    FinishEnds(BuildStep(QueryPage(Pair(StartSync(f.dev, account, false, now), f.store), newIds, t).dev, pendingOrder, recordOrder, t'));
  }

  /** The four steps of a sync that finds nothing to do. */
  function IdleSync(account: string, now: pos, newIds: seq<string>, t: pos, pendingOrder: seq<RecordId>, recordOrder: seq<RecordId>, t': pos): seq<Action> {
    [Start(account, false, now), Query(newIds, t), BuildPush(pendingOrder, recordOrder, t'), Finish]
  }

  lemma QuietAll(account: string, f: Pair, now: pos, newIds: seq<string>, t: pos, pendingOrder: seq<RecordId>, recordOrder: seq<RecordId>, t': pos)
    requires Quiet(f) && DevInv(account, f.dev, f.store) && StoreInv(account, f.store) && f.dev.client.sync.accountId == Some(account)
    requires Unused(newIds, f)
    requires Enumerates(pendingOrder, f.dev.client.sync.pendingDeletes.Keys) && Enumerates(recordOrder, f.dev.client.sync.records.Keys)
    ensures var q := ActAll(f, IdleSync(account, now, newIds, t, pendingOrder, recordOrder, t'));
      && Quiet(q) && q.store == f.store && q.dev.client.vault == f.dev.client.vault
      && q.dev.client.sync.serverSequence == f.dev.client.sync.serverSequence
  {
    QuietActs(account, f, now, newIds, t, pendingOrder, recordOrder, t');
    ActAllInTurn(f, Start(account, false, now), Query(newIds, t), BuildPush(pendingOrder, recordOrder, t'), Finish);
  }

  /** Quiescence in every run: when a device is quiet, a sync that starts from its cursor queries one
      page, queues nothing, changes neither the server nor the vault nor the cursor, and leaves the
      device quiet. */
  lemma QuietStaysQuiet(events: seq<Event>, d: string, now: pos, newIds: seq<string>, t: pos, pendingOrder: seq<RecordId>, recordOrder: seq<RecordId>, t': pos)
    requires var f := PairOf(Run(events), d); Quiet(f) && f.dev.client.sync.accountId.Some? && Unused(newIds, f)
    requires var sync := PairOf(Run(events), d).dev.client.sync;
      Enumerates(pendingOrder, sync.pendingDeletes.Keys) && Enumerates(recordOrder, sync.records.Keys)
    ensures var f := PairOf(Run(events), d);
      var q := PairOf(Run(events + EventsOf(d, IdleSync(Account(f.dev), now, newIds, t, pendingOrder, recordOrder, t'))), d);
      && Quiet(q) && q.store == f.store && q.dev.client.vault == f.dev.client.vault
      && q.dev.client.sync.serverSequence == f.dev.client.sync.serverSequence
  {
    var f := PairOf(Run(events), d);
    var account := Account(f.dev);
    var acts := IdleSync(account, now, newIds, t, pendingOrder, recordOrder, t');
    assert StoreInv(account, f.store) && DevInv(account, f.dev, f.store) by {
      RunInv(events);
      assert DeviceInv(Run(events), d);
    }
    QuietAll(account, f, now, newIds, t, pendingOrder, recordOrder, t');
    RunOfDevice(events, d, account, acts);
    assert Follows(events, d, account, acts);
  }
}
