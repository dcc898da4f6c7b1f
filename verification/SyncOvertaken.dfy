/** A run in which a cursor passes over another device's write. Two devices share an account; each has
    pulled, then one pushes an item, then the other pushes its own. */
module SyncOvertaken {
  import opened Common
  import opened SyncTypes
  import opened SyncServer
  import opened SyncServerFacts
  import opened SyncClient
  import opened SyncProtocol
  import opened SyncInvariant
  import opened SyncTheorems
  import opened SyncCursor
  import opened SyncRuns
  import opened SyncFindings

  /** The choices that do not matter: two devices, an account, a key, one item for each device and an
      identifier that neither uses. */
  datatype Setting = Setting(d: string, e: string, account: string, key: VaultKey, mine: Item, theirs: Item, free: string)

  predicate Apart(s: Setting) {
    s.d != s.e && s.mine.itemId != s.theirs.itemId && s.free != s.mine.itemId && s.free != s.theirs.itemId
  }

  function VaultWith(item: Item): Vault {
    Vault([item], DEFAULT_SETTINGS, [])
  }

  function SignIn(s: Setting, item: Item): seq<Action> {
    [Edit(VaultWith(item), map[]), Start(s.account, false, 1)]
  }

  function FirstPull(s: Setting): seq<Action> {
    [Query([], 1), BootstrapKey(s.key, [], 1, false), BootstrapKey(s.key, [], 1, false), RegisterDevice]
  }

  function PullAndPush(s: Setting): seq<Action> {
    [Query([], 1), RegisterDevice, BuildPush([], [], 1), Push(1, [s.free], 1, false)]
  }

  function PushAndFinish(s: Setting): seq<Action> {
    [BuildPush([], [], 1), Push(1, [s.free], 1, false), Push(1, [s.free], 1, false), Finish]
  }

  function FirstPulled(s: Setting): seq<Event> {
    EventsOf(s.d, SignIn(s, s.mine)) + EventsOf(s.d, FirstPull(s))
  }

  function TheySignedIn(s: Setting): seq<Event> {
    FirstPulled(s) + EventsOf(s.e, SignIn(s, s.theirs))
  }

  function TheyPushed(s: Setting): seq<Event> {
    TheySignedIn(s) + EventsOf(s.e, PullAndPush(s))
  }

  /** First `d` pulls, then `e` pulls and pushes its item, then `d` pushes and finishes. */
  function Overtaking(s: Setting): seq<Event> {
    TheyPushed(s) + EventsOf(s.d, PushAndFinish(s))
  }

  // ---- the devices, one after the other

  function SignedIn(device: string, s: Setting, item: Item): Client {
    Client(device, VaultWith(item), Sync(Some(s.account), 0, 0, map[], map[]))
  }

  lemma EmptyPage(store: Store)
    requires store.sequence == 0
    ensures PullSince(store, 0, PULL_BATCH_LIMIT) == Page(store.wrapped, 0, [])
  {
  }

  /** A pull of nothing. */
  lemma EmptyAbsorb(p: Pair, pull: Pull, key: VaultKey, page: Page, newIds: seq<string>, now: pos)
    requires page.rows == []
    ensures var q := Absorb(p, pull, key, page, 0, 0, newIds, now);
      q.store == p.store && q.dev.client == p.dev.client && q.dev.phase.Pulled?
      && q.dev.phase.key == key && q.dev.phase.pull.sequence == pull.sequence && q.dev.phase.pull.since == pull.since
  {
  }

  /** A device that has signed in and is about to query its first page. */
  ghost predicate AtFirstQuery(p: Pair, device: string, s: Setting, item: Item) {
    && p.dev.client == SignedIn(device, s, item) && p.dev.phase.Pulling? && p.dev.phase.knownKey.None?
    && p.dev.phase.next == 0 && p.dev.phase.pages == 0 && p.dev.phase.pull.since == 0 && p.dev.phase.pull.sequence == 0
  }

  ghost predicate HasPulled(p: Pair, device: string, s: Setting, item: Item) {
    && p.dev.client == SignedIn(device, s, item) && p.dev.phase.Pulled? && p.dev.phase.key == s.key
    && p.dev.phase.pull.since == 0 && p.dev.phase.pull.sequence == 0
  }

  /** The store once the first device has set up the vault key. */
  function Founded(s: Setting): Store {
    Store(true, Some(Wrapped(s.account, s.key)), 0, map[], map[], {s.d}, [])
  }

  lemma FirstQuery(s: Setting, p: Pair)
    requires AtFirstQuery(p, s.d, s, s.mine) && p.store == EmptyStore
    ensures var q := QueryPage(p, [], 1);
      && q.store == p.store && q.dev.client == p.dev.client && q.dev.phase.AwaitingKey? && q.dev.phase.page == Page(None, 0, [])
      && q.dev.phase.candidate.None? && q.dev.phase.pull.since == 0 && q.dev.phase.pull.sequence == 0
  {
    EmptyPage(p.store);
  }

  lemma FirstPullEnds(s: Setting, p: Pair)
    requires AtFirstQuery(p, s.d, s, s.mine) && p.store == EmptyStore
    ensures var q := ActAll(p, FirstPull(s)); HasPulled(q, s.d, s, s.mine) && q.store == Founded(s)
  {
    ActAllInTurn(p, Query([], 1), BootstrapKey(s.key, [], 1, false), BootstrapKey(s.key, [], 1, false), RegisterDevice);
    FirstQuery(s, p);
    var q := QueryPage(p, [], 1);
    var r := BootstrapStep(q, s.key, [], 1, false);
    assert r.dev.client == q.dev.client && r.dev.phase == q.dev.phase.(candidate := Some(s.key));
    assert r.store == EmptyStore.(bootstrapped := true);
    KeyStored(s, r);
  }

  lemma KeyStored(s: Setting, r: Pair)
    requires r.store == EmptyStore.(bootstrapped := true) && r.dev.client == SignedIn(s.d, s, s.mine)
    requires r.dev.phase.AwaitingKey? && r.dev.phase.page.rows == [] && r.dev.phase.candidate == Some(s.key)
    requires r.dev.phase.pull.since == 0 && r.dev.phase.pull.sequence == 0
    ensures var q := Act(BootstrapStep(r, s.key, [], 1, false), RegisterDevice); HasPulled(q, s.d, s, s.mine) && q.store == Founded(s)
  {
    var t := r.(store := Bootstrap(r.store, Some(Wrapped(s.account, s.key))));
    EmptyAbsorb(t, r.dev.phase.pull, s.key, r.dev.phase.page, [], 1);
    assert BootstrapStep(r, s.key, [], 1, false) == Absorb(t, r.dev.phase.pull, s.key, r.dev.phase.page, 0, 0, [], 1);
    assert {} + {s.d} == {s.d};
  }

  // ---- building and pushing

  /** The queue of a device that has one item and remembers nothing. */
  lemma TwoQueued(p: Pair, device: string, s: Setting, item: Item)
    requires HasPulled(p, device, s, item)
    ensures var d := BuildStep(p.dev, [], [], 1); var records := [RecordOfItem(item, 1), SettingsRecordOf(VaultWith(item), 1)];
      && d.client == p.dev.client && d.phase.Pushing? && d.phase.sequence == 0 && d.phase.pull.sequence == 0
      && d.phase.queue == [Enqueue(s.key, s.account, device, map[], records[0]), Enqueue(s.key, s.account, device, map[], records[1])]
      && d.phase.plainById == map[records[0].id := records[0], records[1].id := records[1]]
  {
    var c := p.dev.client;
    var a, b := RecordOfItem(item, 1), SettingsRecordOf(VaultWith(item), 1);
    assert ItemRecords([item], 1) == [a];
    assert PasskeyRecords([], 1) == [];
    assert Active(c.vault, 1) == [a, b];
    assert Enumerates([], c.sync.pendingDeletes.Keys) && Enumerates([], c.sync.records.Keys);
    var list := PushList(c.vault, c.sync, [], [], 1);
    assert list == [a, b];
    assert [a, b][..1] == [a] && [a][..0] == [];
    assert Build(s.key, s.account, device, map[], [a]) == Built(map[], [Enqueue(s.key, s.account, device, map[], a)], map[a.id := a]);
  }

  lemma OneWritten(s: Store, r: Encrypted)
    requires s.bootstrapped && r.deviceId in s.devices && r.id !in s.rows && r.revision == 1 && r.hash.Sha256?
    ensures PushBatch(s, [r]) == Some(PushOutcome(Write(s, r), [Acknowledge(NextRow(None, r, s.sequence + 1))], []))
  {
    assert [r][..|[r]| - 1] == [] && [r][|[r]| - 1] == r;
    assert PushRecords(s, []) == Some(PushOutcome(s, [], []));
    assert PushRecords(s, [r]) == PushOne(PushOutcome(s, [], []), r);
    var row := NextRow(None, r, s.sequence + 1);
    var none: seq<Accepted> := [];
    assert Find(s.rows, r.id) == None && Decide(None, r) == WriteIncoming;
    assert Write(s, r).rows[r.id] == row;
    assert PushOne(PushOutcome(s, [], []), r) == Some(PushOutcome(Write(s, r), none + [Acknowledge(row)], []));
    assert none + [Acknowledge(row)] == [Acknowledge(row)];
    assert DistinctIds([r]) && ValidBatch(s, [r]);
  }

  /** The next record to push is one that the server does not hold. */
  ghost predicate Fresh(p: Pair, free: string) {
    && p.dev.phase.Pushing? && p.dev.phase.queue != [] && Unused([free], p)
    && var r := p.dev.phase.queue[0].record;
       p.store.bootstrapped && r.deviceId in p.store.devices && r.id !in p.store.rows && r.revision == 1 && r.hash.Sha256?
  }

  lemma PushStepIs(p: Pair, free: string, o: PushOutcome)
    requires p.dev.phase.Pushing? && p.dev.phase.queue != [] && Unused([free], p)
    requires PushBatch(p.store, RecordsOf(p.dev.phase.queue[..1])) == Some(o)
    ensures var ph := p.dev.phase; var w := TakeOutcome(WorkOn(p.dev.client, ph.pull), ph.key, Account(p.dev), ph.plainById, o, [free], 1);
      PushStep(p, 1, [free], 1, false)
        == Pair(Dev(w.client, ph.(pull := Answered(ph.pull, w, Heard(ph.key, Account(p.dev), o)), queue := ph.queue[1..],
                                  sequence := Max(ph.sequence, o.store.sequence))), o.store)
  {
  }

  lemma AcceptedKeys(sync: Sync, plainById: map<RecordId, Plain>, a: Accepted)
    ensures var u := TakeAccepted(sync, plainById, a);
      u.records.Keys == sync.records.Keys + {a.id} && u.pendingDeletes.Keys <= sync.pendingDeletes.Keys
  {
  }

  lemma FreshPush(p: Pair, free: string)
    requires Fresh(p, free)
    ensures var q := PushStep(p, 1, [free], 1, false); var ph := p.dev.phase; var r := ph.queue[0].record;
      && q.store == Write(p.store, r) && q.dev.client.vault == p.dev.client.vault
      && q.dev.client.sync.records.Keys == p.dev.client.sync.records.Keys + {r.id}
      && q.dev.client.sync.pendingDeletes.Keys <= p.dev.client.sync.pendingDeletes.Keys
      && q.dev.phase.Pushing? && q.dev.phase.queue == ph.queue[1..] && q.dev.phase.plainById == ph.plainById
      && q.dev.phase.sequence == Max(ph.sequence, p.store.sequence + 1)
  {
    var ph := p.dev.phase;
    var r := ph.queue[0].record;
    var a := Acknowledge(NextRow(None, r, p.store.sequence + 1));
    assert RecordsOf(ph.queue[..1]) == [r];
    OneWritten(p.store, r);
    PushStepIs(p, free, PushOutcome(Write(p.store, r), [a], []));
    OneTaken(WorkOn(p.dev.client, ph.pull), ph.key, Account(p.dev), ph.plainById, Write(p.store, r), a, free);
    AcceptedKeys(p.dev.client.sync, ph.plainById, a);
  }

  lemma OneTaken(w: Work, key: VaultKey, account: string, plainById: map<RecordId, Plain>, store: Store, a: Accepted, free: string)
    ensures var c := TakeOutcome(w, key, account, plainById, PushOutcome(store, [a], []), [free], 1).client;
      c == w.client.(sync := TakeAccepted(w.client.sync, plainById, a))
  {
    assert [a][..0] == [];
    assert TakeAllAccepted(w.client.sync, plainById, [a]) == TakeAccepted(w.client.sync, plainById, a);
  }

  lemma ItemIsFresh(p: Pair, device: string, s: Setting, item: Item)
    requires HasPulled(p, device, s, item) && s.free != item.itemId
    requires p.store.bootstrapped && device in p.store.devices && ItemRecord(item.itemId) !in p.store.rows && ItemRecord(s.free) !in p.store.rows
    ensures var q := Pair(BuildStep(p.dev, [], [], 1), p.store);
      && Fresh(q, s.free) && q.dev.phase.queue[0].record.id == ItemRecord(item.itemId) && |q.dev.phase.queue| == 2
      && q.dev.phase.queue[1].record.id == SettingsRecord && q.dev.phase.queue[1].record.revision == 1
      && q.dev.phase.queue[1].record.hash.Sha256? && q.dev.phase.queue[1].record.deviceId == device
      && q.dev.client == p.dev.client && q.dev.phase.plainById.Keys == {ItemRecord(item.itemId), SettingsRecord}
      && q.dev.phase.pull.sequence == 0 && q.dev.phase.sequence == 0
  {
    TwoQueued(p, device, s, item);
  }

  lemma ActPushes(p: Pair, free: string)
    ensures Act(p, Push(1, [free], 1, false)) == PushStep(p, 1, [free], 1, false)
  {
  }

  /** The other device's item is the only row. */
  ghost predicate TheirsStored(store: Store, s: Setting) {
    var id := ItemRecord(s.theirs.itemId);
    && store.bootstrapped && s.d in store.devices && store.sequence == 1
    && store.rows.Keys == {id} && store.rows[id].serverSequence == 1
  }

  lemma TheyPull(s: Setting, p: Pair)
    requires AtFirstQuery(p, s.e, s, s.theirs) && p.store == Founded(s)
    ensures var r := Act(QueryPage(p, [], 1), RegisterDevice);
      r.store == Founded(s).(devices := {s.d, s.e}) && HasPulled(r, s.e, s, s.theirs)
  {
    EmptyPage(p.store);
    EmptyAbsorb(p, p.dev.phase.pull.(sequence := 0), s.key, Page(p.store.wrapped, 0, []), [], 1);
    assert {s.d} + {s.e} == {s.d, s.e};
  }

  lemma TheyPush(s: Setting, p: Pair)
    requires Apart(s) && AtFirstQuery(p, s.e, s, s.theirs) && p.store == Founded(s)
    ensures TheirsStored(ActAll(p, PullAndPush(s)).store, s)
  {
    ActAllInTurn(p, Query([], 1), RegisterDevice, BuildPush([], [], 1), Push(1, [s.free], 1, false));
    ActIsStep(p, Query([], 1), QueryPage(p, [], 1));
    TheyPull(s, p);
    var r := Act(QueryPage(p, [], 1), RegisterDevice);
    var q := Pair(BuildStep(r.dev, [], [], 1), r.store);
    ActIsStep(r, BuildPush([], [], 1), q);
    ActPushes(q, s.free);
    TheirPush(s, r);
  }

  lemma TheirPush(s: Setting, r: Pair)
    requires Apart(s) && r.store == Founded(s).(devices := {s.d, s.e}) && HasPulled(r, s.e, s, s.theirs)
    ensures TheirsStored(PushStep(Pair(BuildStep(r.dev, [], [], 1), r.store), 1, [s.free], 1, false).store, s)
  {
    ItemIsFresh(r, s.e, s, s.theirs);
    FreshPush(Pair(BuildStep(r.dev, [], [], 1), r.store), s.free);
  }

  /** The device has passed over the other's item. */
  ghost predicate PassedOver(p: Pair, s: Setting) {
    var id := ItemRecord(s.theirs.itemId);
    && p.dev.phase.Idle? && id in p.store.rows && id !in p.dev.client.sync.records
    && p.store.rows[id].serverSequence <= p.dev.client.sync.serverSequence
  }

  /** After the first of the two pushes. */
  ghost predicate HalfWay(p: Pair, s: Setting) {
    && Fresh(p, s.free) && |p.dev.phase.queue| == 1 && p.dev.phase.queue[0].record.id == SettingsRecord
    && p.store.sequence == 2 && ItemRecord(s.theirs.itemId) in p.store.rows && ItemRecord(s.theirs.itemId) !in p.dev.client.sync.records
    && p.store.rows[ItemRecord(s.theirs.itemId)].serverSequence == 1
  }

  lemma FirstPush(s: Setting, p: Pair)
    requires Apart(s) && HasPulled(p, s.d, s, s.mine) && TheirsStored(p.store, s)
    ensures HalfWay(PushStep(Pair(BuildStep(p.dev, [], [], 1), p.store), 1, [s.free], 1, false), s)
  {
    var q := Pair(BuildStep(p.dev, [], [], 1), p.store);
    ItemIsFresh(p, s.d, s, s.mine);
    FreshPush(q, s.free);
  }

  lemma SecondPush(s: Setting, p: Pair)
    requires HalfWay(p, s)
    ensures PassedOver(Act(PushStep(p, 1, [s.free], 1, false), Finish), s)
  {
    FreshPush(p, s.free);
    var q := PushStep(p, 1, [s.free], 1, false);
    assert q.dev.phase.queue == [];
    ActIsStep(q, Finish, Pair(FinishStep(q.dev), q.store));
  }

  lemma WePush(s: Setting, p: Pair)
    requires Apart(s) && HasPulled(p, s.d, s, s.mine) && TheirsStored(p.store, s)
    ensures PassedOver(ActAll(p, PushAndFinish(s)), s)
  {
    var push := Push(1, [s.free], 1, false);
    ActAllInTurn(p, BuildPush([], [], 1), push, push, Finish);
    var q := Pair(BuildStep(p.dev, [], [], 1), p.store);
    ActIsStep(p, BuildPush([], [], 1), q);
    FirstPush(s, p);
    ActPushes(q, s.free);
    ActPushes(PushStep(q, 1, [s.free], 1, false), s.free);
    SecondPush(s, PushStep(q, 1, [s.free], 1, false));
  }

  // ---- the run

  /** Events of one device leave the state of the other. */
  ghost predicate Stays(events: seq<Event>, more: seq<Event>, e: string) {
    DevOf(Run(events + more), e) == DevOf(Run(events), e)
  }

  lemma OtherStays(events: seq<Event>, d: string, act: Action, e: string)
    requires e != d
    ensures Stays(events, [Event(d, act)], e)
  {
    RunSnoc(events, Event(d, act));
  }

  lemma StaysLonger(events: seq<Event>, more: seq<Event>, last: seq<Event>, e: string)
    requires Stays(events, more, e) && Stays(events + more, last, e)
    ensures Stays(events, more + last, e)
  {
    assert events + (more + last) == events + more + last;
  }

  lemma StaysOneMore(events: seq<Event>, d: string, acts: seq<Action>, e: string)
    requires acts != [] && e != d && Stays(events, EventsOf(d, acts[..|acts| - 1]), e)
    ensures Stays(events, EventsOf(d, acts), e)
  {
    var n := |acts| - 1;
    var init := EventsOf(d, acts[..n]);
    OtherStays(events + init, d, acts[n], e);
    StaysLonger(events, init, [Event(d, acts[n])], e);
    assert EventsOf(d, acts) == init + [Event(d, acts[n])];
  }

  lemma {:induction false} OthersStay(events: seq<Event>, d: string, acts: seq<Action>, e: string)
    requires e != d
    ensures Stays(events, EventsOf(d, acts), e)
  {
    if acts == [] {
      assert events + EventsOf(d, acts) == events;
    } else {
      OthersStay(events, d, acts[..|acts| - 1], e);
      StaysOneMore(events, d, acts, e);
    }
  }

  /** A new device signs in. */
  lemma SignInRun(events: seq<Event>, device: string, s: Setting, item: Item)
    requires DevOf(Run(events), device) == NewDev(device)
    ensures var p := PairOf(Run(events + EventsOf(device, SignIn(s, item))), device);
      AtFirstQuery(p, device, s, item) && p.store == StoreOf(Run(events), s.account)
  {
    var edit, start := Event(device, SignIn(s, item)[0]), Event(device, SignIn(s, item)[1]);
    assert events + EventsOf(device, SignIn(s, item)) == (events + [edit]) + [start];
    RunSnoc(events, edit);
    RunSnoc(events + [edit], start);
    RunInv(events);
    RunInv(events + [edit]);
    StepPair(Run(events), edit);
    StepPair(Run(events + [edit]), start);
    assert StoreOf(Run(events + [edit]), s.account) == StoreOf(Run(events), s.account);
  }

  /** The first device has pulled. */
  lemma FirstRun(s: Setting)
    requires s.d != s.e
    ensures HasPulled(PairOf(Run(FirstPulled(s)), s.d), s.d, s, s.mine) && StoreOf(Run(FirstPulled(s)), s.account) == Founded(s)
    ensures DevOf(Run(FirstPulled(s)), s.e) == NewDev(s.e)
  {
    var start := EventsOf(s.d, SignIn(s, s.mine));
    assert [] + start == start;
    SignInRun([], s.d, s, s.mine);
    FirstPullEnds(s, PairOf(Run(start), s.d));
    RunOfDevice(start, s.d, s.account, FirstPull(s));
    assert Follows(start, s.d, s.account, FirstPull(s));
    OthersStay([], s.d, SignIn(s, s.mine), s.e);
    OthersStay(start, s.d, FirstPull(s), s.e);
  }

  lemma TheirStart(s: Setting)
    requires s.d != s.e
    ensures AtFirstQuery(PairOf(Run(TheySignedIn(s)), s.e), s.e, s, s.theirs) && PairOf(Run(TheySignedIn(s)), s.e).store == Founded(s)
  {
    FirstRun(s);
    SignInRun(FirstPulled(s), s.e, s, s.theirs);
  }

  /** The second has pushed. */
  lemma TheirRun(s: Setting)
    requires Apart(s)
    ensures TheirsStored(StoreOf(Run(TheyPushed(s)), s.account), s)
  {
    TheirStart(s);
    TheyPush(s, PairOf(Run(TheySignedIn(s)), s.e));
    RunOfDevice(TheySignedIn(s), s.e, s.account, PullAndPush(s));
    assert Follows(TheySignedIn(s), s.e, s.account, PullAndPush(s));
  }

  lemma SecondRun(s: Setting)
    requires Apart(s)
    ensures HasPulled(PairOf(Run(TheyPushed(s)), s.d), s.d, s, s.mine) && TheirsStored(StoreOf(Run(TheyPushed(s)), s.account), s)
  {
    FirstRun(s);
    TheirRun(s);
    OthersStay(FirstPulled(s), s.e, SignIn(s, s.theirs), s.d);
    OthersStay(TheySignedIn(s), s.e, PullAndPush(s), s.d);
  }

  lemma OurRun(s: Setting)
    requires Apart(s)
    ensures PassedOver(PairOf(Run(Overtaking(s)), s.d), s)
  {
    SecondRun(s);
    WePush(s, PairOf(Run(TheyPushed(s)), s.d));
    RunOfDevice(TheyPushed(s), s.d, s.account, PushAndFinish(s));
    assert Follows(TheyPushed(s), s.d, s.account, PushAndFinish(s));
  }

  /** The cursor can step over another device's write: in each of these runs the device ends its sync
      idle, does not remember the other's item at all, and its cursor lies beyond the row, so no page
      it asks for from there has it. */
  lemma PushStepsOver(s: Setting, limit: nat)
    requires Apart(s)
    ensures var p := PairOf(Run(Overtaking(s)), s.d);
      && PassedOver(p, s) && !CursorSound(p.dev.client.sync, p.store.rows)
      && p.store.rows[ItemRecord(s.theirs.itemId)] !in PullSince(p.store, p.dev.client.sync.serverSequence, limit).rows
  {
    var id := ItemRecord(s.theirs.itemId);
    var p := PairOf(Run(Overtaking(s)), s.d);
    OurRun(s);
    assert StoreInv(Account(p.dev), p.store) by { RunInv(Overtaking(s)); }
    assert Filed(p.store.log, p.store.rows[id], id) && !Knows(p.dev.client.sync.records, p.store.rows[id], id);
    BehindTheCursor(p.store, id, p.dev.client.sync.serverSequence, limit);
  }
}
