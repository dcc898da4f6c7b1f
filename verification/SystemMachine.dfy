/** Device and server objects together. Any sequence of calls on them leads where the run of the
    protocol leads, so that whatever is proved of runs holds of the objects. */
module SystemMachine {
  import opened Common
  import S = SyncServer
  import opened SyncProtocol
  import opened ServerMachine
  import opened DeviceMachine

  /** What a call expects of its arguments: random identifiers are unused where they are drawn, there
      are enough of them, orders enumerate what they should, and a batch is a head of the queue. */
  predicate MayCall(p: Pair, act: Action) {
    match act
    case Query(newIds, _) => p.dev.phase.Pulling? ==> Unused(newIds, p) && PULL_BATCH_LIMIT <= |newIds|
    case BootstrapKey(_, newIds, _, _) => p.dev.phase.AwaitingKey? ==> Unused(newIds, p) && |p.dev.phase.page.rows| <= |newIds|
    case BuildPush(pendingOrder, recordOrder, _) =>
      p.dev.phase.Pulled? ==>
        Enumerates(pendingOrder, p.dev.client.sync.pendingDeletes.Keys) && Enumerates(recordOrder, p.dev.client.sync.records.Keys)
    case Push(n, newIds, _, _) =>
      p.dev.phase.Pushing? ==> 0 < n <= |p.dev.phase.queue| && Unused(newIds, p) && n <= |newIds|
    case _ => true
  }

  /** One call on a device, against the server of the account it concerns. */
  method Perform(device: Device, server: Server, act: Action)
    requires device.Valid() && MayCall(Pair(device.State(), server.State()), act)
    modifies device, server
    ensures device.Valid() && Pair(device.State(), server.State()) == Act(old(Pair(device.State(), server.State())), act)
  {
    match act {
      case Edit(vault, pendingDeletes) => device.EditVault(vault, pendingDeletes);
      case Start(account, full, now) => device.Start(account, full, now);
      case RegisterDevice =>
        if !device.stage.AtRest? { var ok := server.RegisterDevice(device.deviceId); }
      case Query(newIds, now) =>
        if device.stage.PageDue? { device.Query(server, newIds, now); }
      case BootstrapKey(candidate, newIds, now, lost) =>
        if device.stage.KeyDue? { device.EnsureVaultKey(server, candidate, newIds, now, lost); }
      case BuildPush(pendingOrder, recordOrder, now) =>
        if device.stage.QueueDue? { device.BuildPush(pendingOrder, recordOrder, now); }
      case Push(n, newIds, now, lost) =>
        if device.stage.PushDue? { device.Push(server, n, newIds, now, lost); }
      case Finish => device.Finish();
      case Abort => device.Abort();
    }
  }

  ghost predicate Leads(p: Pair, act: Action, q: Pair) {
    MayCall(p, act) && q == Act(p, act)
  }

  /** The same, on protocol states. */
  method PerformAs(device: Device, server: Server, act: Action, ghost p: Pair, ghost q: Pair)
    requires device.Is(p.dev) && server.State() == p.store && Leads(p, act, q)
    modifies device, server
    ensures device.Is(q.dev) && server.State() == q.store
  {
    assert Pair(device.State(), server.State()) == p;
    Perform(device, server, act);
  }

  /** Every device that has acted so far, and the server of every account. */
  class System {
    var devices: map<string, Device>
    var servers: map<string, Server>

    /** One object for each device, standing for its state. */
    ghost predicate HasDevices(devs: map<string, Dev>)
      reads this`devices, devices.Values
    {
      && devices.Keys == devs.Keys
      && (forall d :: d in devices ==> devices[d].Is(devs[d]))
      && (forall d, e :: d in devices && e in devices && d != e ==> devices[d] != devices[e])
    }

    /** One object for each server, standing for its store. */
    ghost predicate HasServers(stores: map<string, S.Store>)
      reads this`servers, servers.Values
    {
      && servers.Keys == stores.Keys
      && (forall a :: a in servers ==> servers[a].State() == stores[a])
      && (forall a, b :: a in servers && b in servers && a != b ==> servers[a] != servers[b])
    }

    ghost predicate Reflects(w: World)
      reads this, devices.Values, servers.Values
    {
      HasDevices(w.devs) && HasServers(w.stores)
    }

    constructor ()
      ensures Reflects(World(map[], map[])) && devices == map[] && servers == map[]
    {
      devices, servers := map[], map[];
    }

    method DeviceFor(ghost w: World, d: string)
      requires HasDevices(w.devs)
      modifies this`devices
      ensures HasDevices(w.devs[d := DevOf(w, d)]) && d in devices && devices[d].Is(DevOf(w, d))
      ensures fresh(devices.Values - old(devices.Values))
    {
      if d !in devices {
        var device := new Device(d);
        devices := devices[d := device];
      }
    }

    method ServerFor(ghost w: World, a: string)
      requires HasServers(w.stores)
      modifies this`servers
      ensures HasServers(w.stores[a := StoreOf(w, a)]) && a in servers
      ensures fresh(servers.Values - old(servers.Values))
    {
      if a !in servers {
        var server := new Server();
        servers := servers[a := server];
      }
    }

    /** The device and the server that an event concerns, new ones if need be. */
    method Enroll(ghost w: World, e: Event) returns (a: string)
      requires Reflects(w)
      modifies this
      ensures a == Target(w, e) && e.device in devices && a in servers
      ensures HasDevices(w.devs[e.device := DevOf(w, e.device)]) && HasServers(w.stores[a := StoreOf(w, a)])
      ensures fresh(devices.Values - old(devices.Values)) && fresh(servers.Values - old(servers.Values))
    {
      DeviceFor(w, e.device);
      a := AccountFor(w, e);
      ServerFor(w, a);
    }

    method AccountFor(ghost w: World, e: Event) returns (a: string)
      requires e.device in devices && devices[e.device].Is(DevOf(w, e.device))
      ensures a == Target(w, e)
    {
      a := if e.act.Start? then e.act.account else devices[e.device].accountId.GetOr("");
    }

    ghost predicate OtherDevices(devs: map<string, Dev>, d: string)
      requires d in devices
      reads this`devices, devices.Values - {devices[d]}
    {
      && devices.Keys == devs.Keys
      && (forall e :: e in devices && e != d ==> devices[e] != devices[d] && devices[e].Is(devs[e]))
      && (forall d, e :: d in devices && e in devices && d != e ==> devices[d] != devices[e])
    }

    ghost predicate OtherServers(stores: map<string, S.Store>, a: string)
      requires a in servers
      reads this`servers, servers.Values - {servers[a]}
    {
      && servers.Keys == stores.Keys
      && (forall b :: b in servers && b != a ==> servers[b] != servers[a] && servers[b].State() == stores[b])
      && (forall a, b :: a in servers && b in servers && a != b ==> servers[a] != servers[b])
    }

    /** A call on one device and one server changes nothing else. */
    method PerformHere(ghost devs: map<string, Dev>, ghost stores: map<string, S.Store>, d: string, a: string, act: Action, ghost q: Pair)
      requires d in devices && OtherDevices(devs, d) && devices[d].Is(devs[d])
      requires a in servers && OtherServers(stores, a) && servers[a].State() == stores[a]
      requires Leads(Pair(devs[d], stores[a]), act, q)
      modifies devices[d], servers[a]
      ensures OtherDevices(devs, d) && devices[d].Is(q.dev) && OtherServers(stores, a) && servers[a].State() == q.store
    {
      PerformAs(devices[d], servers[a], act, Pair(devs[d], stores[a]), q);
    }

    lemma PickDevice(devs: map<string, Dev>, d: string)
      requires HasDevices(devs) && d in devices
      ensures OtherDevices(devs, d) && devices[d].Is(devs[d])
    {
    }

    lemma PickServer(stores: map<string, S.Store>, a: string)
      requires HasServers(stores) && a in servers
      ensures OtherServers(stores, a) && servers[a].State() == stores[a]
    {
    }

    lemma PutDevice(devs: map<string, Dev>, d: string, was: Dev, dev: Dev)
      requires d in devices && OtherDevices(devs[d := was], d) && devices[d].Is(dev)
      ensures HasDevices(devs[d := dev])
    {
    }

    lemma PutServer(stores: map<string, S.Store>, a: string, was: S.Store, store: S.Store)
      requires a in servers && OtherServers(stores[a := was], a) && servers[a].State() == store
      ensures HasServers(stores[a := store])
    {
    }

    /** One event is one call. */
    method Handle(ghost w: World, e: Event)
      requires Reflects(w) && MayHappen(w, e)
      modifies this, devices.Values, servers.Values
      ensures Reflects(Step(w, e))
      ensures fresh(devices.Values - old(devices.Values)) && fresh(servers.Values - old(servers.Values))
    {
      var a := Enroll(w, e);
      HandleAs(w, e, a, Pair(DevOf(w, e.device), StoreOf(w, a)), StepOf(w, e));
    }

    method HandleAs(ghost w: World, e: Event, a: string, ghost p: Pair, ghost q: Pair)
      requires e.device in devices && a in servers && Leads(p, e.act, q)
      requires HasDevices(w.devs[e.device := p.dev]) && HasServers(w.stores[a := p.store])
      modifies devices[e.device], servers[a]
      ensures HasDevices(w.devs[e.device := q.dev]) && HasServers(w.stores[a := q.store])
    {
      PickDevice(w.devs[e.device := p.dev], e.device);
      PickServer(w.stores[a := p.store], a);
      PerformHere(w.devs[e.device := p.dev], w.stores[a := p.store], e.device, a, e.act, q);
      PutDevice(w.devs, e.device, p.dev, q.dev);
      PutServer(w.stores, a, p.store, q.store);
    }
  }

  /** The device and the store that an event leaves. */
  ghost function StepOf(w: World, e: Event): (q: Pair)
    ensures Step(w, e) == World(w.stores[Target(w, e) := q.store], w.devs[e.device := q.dev])
    ensures MayHappen(w, e) ==> Leads(Pair(DevOf(w, e.device), StoreOf(w, Target(w, e))), e.act, q)
  {
    Act(Pair(DevOf(w, e.device), StoreOf(w, Target(w, e))), e.act)
  }

  /** Every call of the list may be made where its turn comes. */
  ghost predicate MayPlay(events: seq<Event>) {
    forall i :: 0 <= i < |events| ==> MayHappen(Run(events[..i]), events[i])
  }

  /** Simulation: whatever calls are made, the objects end in the state of the protocol's run. */
  method Play(events: seq<Event>) returns (system: System)
    requires MayPlay(events)
    ensures fresh(system) && system.Reflects(Run(events))
  {
    system := new System();
    ghost var w := World(map[], map[]);
    for i := 0 to |events|
      invariant fresh(system) && fresh(system.devices.Values) && fresh(system.servers.Values)
      invariant system.Reflects(w) && w == Run(events[..i])
    {
      OneMore(events, i);
      system.Handle(w, events[i]);
      w := Step(w, events[i]);
    }
    assert events[..|events|] == events;
  }

  lemma OneMore(events: seq<Event>, i: nat)
    requires i < |events| && MayPlay(events)
    ensures MayHappen(Run(events[..i]), events[i]) && Run(events[..i + 1]) == Step(Run(events[..i]), events[i])
  {
    assert events[..i + 1][..i] == events[..i];
  }

  predicate MayHappen(w: World, e: Event) {
    MayCall(Pair(DevOf(w, e.device), StoreOf(w, Target(w, e))), e.act)
  }
}
