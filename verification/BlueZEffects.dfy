/**
 What each event does to BlueZBackend, in terms of paths, owners and what was shown: which snapshot it emits, whose the
 service is, which paths keep or get an ID, and what the agent is told.
 */
module BlueZEffects {
  import opened BlueZGuarantees
  import opened BlueZSpec
  import opened LifetimeIds
  import opened Prelude
  import R = RefreshProtocol

  // ---------------------------------------------------------------- what a reply lists

  ghost predicate ListsAdapter(objects: seq<Object>, path: string) {
    exists o :: o in objects && o.path == path && o.isAdapter
  }

  /** A device of an adapter that is in the same reply. */
  ghost predicate ListsDevice(objects: seq<Object>, path: string, adapter: string) {
    ListsAdapter(objects, adapter) && exists o :: o in objects && o.path == path && o.device == Some(adapter)
  }

  lemma AdaptersListed(objects: seq<Object>)
    ensures forall p :: p in Adapters(objects) <==> ListsAdapter(objects, p)
  {}

  lemma DevicesListed(objects: seq<Object>)
    ensures forall o :: o in Devices(objects, Adapters(objects)) <==>
              o in objects && o.device.Some? && ListsDevice(objects, o.path, o.device.value)
    ensures forall p :: p in PathsOf(Devices(objects, Adapters(objects))) <==> exists a :: ListsDevice(objects, p, a)
  {
    hide Adapters, ListsAdapter;
    AdaptersListed(objects);
    var devices := Devices(objects, Adapters(objects));
    forall o | o in objects && o.device.Some? && ListsDevice(objects, o.path, o.device.value) ensures o in devices {}
    forall p, a | ListsDevice(objects, p, a) ensures p in PathsOf(devices) {
      var o :| o in objects && o.path == p && o.device == Some(a);
      assert o in devices;
    }
    forall p | p in PathsOf(devices) ensures exists a :: ListsDevice(objects, p, a) {
      var o :| o in devices && o.path == p;
      assert ListsDevice(objects, p, o.device.value);
    }
  }

  lemma LiveListed(objects: seq<Object>)
    ensures forall p :: p in Live(objects) <==> ListsAdapter(objects, p) || exists a :: ListsDevice(objects, p, a)
  {
    hide Adapters, Devices;
    AdaptersListed(objects);
    DevicesListed(objects);
    hide ListsAdapter, ListsDevice;
  }

  /** The snapshot shows exactly the adapters listed, and the devices listed on them, under the IDs of the table. */
  ghost predicate ShowsListed(s: Snapshot, objects: seq<Object>, ids: map<string, Id>) {
    && s.available
    && (forall id :: id in s.adapters <==> exists p :: ListsAdapter(objects, p) && p in ids && ids[p] == id)
    && (forall d :: d in s.devices <==>
          exists p, a :: ListsDevice(objects, p, a) && p in ids && a in ids && d == DeviceRecord(ids[p], ids[a]))
  }

  ghost predicate DevicePaths(paths: set<string>, objects: seq<Object>) {
    forall p :: p in paths <==> exists a :: ListsDevice(objects, p, a)
  }

  /** The agent is told the devices listed, under the IDs of the table. */
  ghost predicate TellsAgent(agentDevices: map<string, Id>, objects: seq<Object>, ids: map<string, Id>) {
    && DevicePaths(agentDevices.Keys, objects)
    && (forall p :: p in agentDevices ==> p in ids && agentDevices[p] == ids[p])
  }

  /** For each device its adapter is noted, and every adapter. */
  ghost predicate NotesAdapters(deviceAdapters: map<string, string>, adapters: set<string>, objects: seq<Object>) {
    && DevicePaths(deviceAdapters.Keys, objects)
    && (forall p :: p in deviceAdapters ==> ListsDevice(objects, p, deviceAdapters[p]))
    && (forall p :: p in adapters <==> ListsAdapter(objects, p))
  }

  lemma ListedAreLive(objects: seq<Object>)
    ensures forall p :: ListsAdapter(objects, p) ==> p in Live(objects)
    ensures forall p, a :: ListsDevice(objects, p, a) ==> p in Live(objects) && a in Live(objects)
  {
    LiveListed(objects);
    hide Live;
  }

  lemma SnapshotShowsListed(ids: map<string, Id>, objects: seq<Object>)
    requires ids.Keys == Live(objects)
    ensures ShowsListed(SnapshotOf(ids, objects), objects, ids)
  {
    hide Live, AdapterIds, DeviceRecords;
    ListedAreLive(objects);
    AdaptersShown(ids, objects);
    DevicesShown(ids, objects);
    var s := SnapshotOf(ids, objects);
    assert s.adapters == AdapterIds(ids, AdapterPaths(objects));
    assert s.devices == DeviceRecords(ids, Devices(objects, Adapters(objects)));
  }

  lemma AdaptersShown(ids: map<string, Id>, objects: seq<Object>)
    requires forall p :: ListsAdapter(objects, p) ==> p in ids
    ensures forall id :: id in AdapterIds(ids, AdapterPaths(objects)) <==> exists p :: ListsAdapter(objects, p) && p in ids && ids[p] == id
  {
    var paths := AdapterPaths(objects);
    var shown := AdapterIds(ids, paths);
    forall p | ListsAdapter(objects, p) ensures ids[p] in shown {
      assert p in paths;
      var i :| 0 <= i < |paths| && paths[i] == p;
      assert shown[i] == ids[p];
    }
    forall id | id in shown ensures exists p :: ListsAdapter(objects, p) && p in ids && ids[p] == id {
      var i :| 0 <= i < |shown| && shown[i] == id;
      assert paths[i] in paths;
    }
  }

  lemma DevicesShown(ids: map<string, Id>, objects: seq<Object>)
    requires forall p, a :: ListsDevice(objects, p, a) ==> p in ids && a in ids
    ensures var shown := DeviceRecords(ids, Devices(objects, Adapters(objects)));
            forall d :: d in shown <==>
              exists p, a :: ListsDevice(objects, p, a) && p in ids && a in ids && d == DeviceRecord(ids[p], ids[a])
  {
    hide Adapters;
    DevicesListed(objects);
    var devices := Devices(objects, Adapters(objects));
    var shown := DeviceRecords(ids, devices);
    forall p, a | ListsDevice(objects, p, a) ensures DeviceRecord(ids[p], ids[a]) in shown {
      var o :| o in objects && o.path == p && o.device == Some(a);
      assert o in devices;
      var i :| 0 <= i < |devices| && devices[i] == o;
      assert shown[i] == DeviceRecord(ids[p], ids[a]);
    }
    forall d | d in shown
      ensures exists p, a :: ListsDevice(objects, p, a) && p in ids && a in ids && d == DeviceRecord(ids[p], ids[a])
    {
      var i :| 0 <= i < |shown| && shown[i] == d;
      assert devices[i] in devices;
      assert ListsDevice(objects, devices[i].path, devices[i].device.value);
    }
  }

  lemma {:induction false} AdapterTableListed(devices: seq<Object>)
    requires forall o :: o in devices ==> o.device.Some?
    ensures forall p :: p in AdapterTable(devices) ==> exists o :: o in devices && o.path == p && o.device == Some(AdapterTable(devices)[p])
  {
    if devices != [] {
      var n := |devices| - 1;
      AdapterTableListed(devices[..n]);
      assert devices == devices[..n] + [devices[n]];
    }
  }

  lemma AdapterTableTells(objects: seq<Object>)
    ensures var table := AdapterTable(Devices(objects, Adapters(objects)));
            forall p :: p in table ==> ListsDevice(objects, p, table[p])
  {
    hide Adapters;
    DevicesListed(objects);
    var devices := Devices(objects, Adapters(objects));
    AdapterTableListed(devices);
    forall p | p in AdapterTable(devices) ensures ListsDevice(objects, p, AdapterTable(devices)[p]) {
      var o :| o in devices && o.path == p && o.device == Some(AdapterTable(devices)[p]);
    }
  }

  lemma DevicePathsListed(objects: seq<Object>)
    ensures DevicePaths(PathsOf(Devices(objects, Adapters(objects))), objects)
    ensures PathsOf(Devices(objects, Adapters(objects))) <= Live(objects)
  {
    DevicesListed(objects);
    hide Devices, Adapters, ListsDevice;
  }

  lemma AdaptersNoted(objects: seq<Object>)
    ensures NotesAdapters(AdapterTable(Devices(objects, Adapters(objects))), Adapters(objects), objects)
  {
    DevicePathsListed(objects);
    AdaptersListed(objects);
    AdapterTableTells(objects);
    hide Adapters, Devices, ListsDevice, ListsAdapter, DevicePaths;
  }

  lemma AgentTold(objects: seq<Object>, ids: map<string, Id>)
    requires ids.Keys == Live(objects)
    ensures TellsAgent(AgentTable(ids, Devices(objects, Adapters(objects))), objects, ids)
  {
    DevicePathsListed(objects);
    hide Adapters, Devices, Live, DevicePaths;
  }

  lemma PublishTells(b: Backend, objects: seq<Object>, uuids: map<string, Id>)
    requires uuids.Keys == Live(objects) - b.ids.Keys
    ensures var c := Publish(b, objects, uuids);
            && TellsAgent(c.agentDevices, objects, c.ids) && NotesAdapters(c.deviceAdapters, c.adapters, objects)
            && ShowsListed(SnapshotOf(c.ids, objects), objects, c.ids) && c.emitted == b.emitted + [SnapshotOf(c.ids, objects)]
  {
    hide Live, SnapshotOf, IdsAfter, TellsAgent, NotesAdapters, ShowsListed;
    var c, devices := Publish(b, objects, uuids), Devices(objects, Adapters(objects));
    LiveAfter(b.ids, objects, uuids);
    AdaptersNoted(objects);
    AgentTold(objects, c.ids);
    SnapshotShowsListed(c.ids, objects);
  }

  lemma LiveAfter(ids: map<string, Id>, objects: seq<Object>, uuids: map<string, Id>)
    requires uuids.Keys == Live(objects) - ids.Keys
    ensures IdsAfter(ids, Live(objects), uuids).Keys == Live(objects)
  {}

  // ---------------------------------------------------------------- what each event does

  /** The reply answers the call of the present generation and nothing has changed since that call. */
  predicate UsableReply(r: R.Refresh, e: Event) {
    e.SnapshotReply? && e.at in r.calls && r.calls[e.at].generation == r.generation && r.calls[e.at].revision == r.revision
  }

  predicate Publishes(b: Backend, e: Event) {
    UsableReply(b.refresh, e) && e.objects.Some?
  }

  predicate Fails(b: Backend, e: Event) {
    UsableReply(b.refresh, e) && e.objects.None?
  }

  /** A new owner, or none, is learnt: from the watcher, from the answer asked for, or by stopping. */
  predicate ChangesOwner(b: Backend, e: Event) {
    && b.refresh.started
    && (e.OwnerChanges? || e.Stops? || (e.NameReply? && e.generation == b.refresh.generation))
  }

  function NewOwner(e: Event): string {
    match e
    case OwnerChanges(owner) => owner
    case NameReply(_, Some(owner)) => owner
    case _ => ""
  }

  /** The owner asks about a path the agent knows no device for. */
  predicate Resolves(b: Backend, e: Event) {
    && e.AgentCall? && b.refresh.owner != "" && e.caller == b.refresh.owner
    && (e.path !in b.agentDevices || b.agentDevices[e.path] == "")
  }

  /** Something may have changed, so data asked for earlier is not to be shown. */
  predicate Disturbs(b: Backend, e: Event) {
    || ChangesOwner(b, e) || Resolves(b, e)
    || (e.Signal? && e.sender == b.refresh.owner) || (e.Removal? && e.sender == b.refresh.owner)
    || (e.OperationReply? && e.generation == b.refresh.generation)
  }

  /** The path loses its ID: it is removed itself, or it is a device of a removed adapter. */
  predicate Loses(b: Backend, e: Event, path: string)
    requires e.Removal?
  {
    && e.sender == b.refresh.owner
    && ((path == e.path && (e.adapter || e.device)) || (e.adapter && path in b.deviceAdapters && b.deviceAdapters[path] == e.path))
  }

  ghost predicate TableAfter(b: Backend, e: Event, ids: map<string, Id>) {
    if ChangesOwner(b, e) || Fails(b, e) then ids == map[]
    else if Publishes(b, e) then
      && (forall p :: p in ids <==> ListsAdapter(e.objects.value, p) || exists a :: ListsDevice(e.objects.value, p, a))
      && (forall p :: p in ids ==> if p in b.ids then ids[p] == b.ids[p] else p in e.uuids && ids[p] == e.uuids[p])
    else if Resolves(b, e) then ids == b.ids[e.path := if e.path in b.ids then b.ids[e.path] else e.uuid]
    else if e.Removal? then
      && (forall p :: p in ids <==> p in b.ids && !Loses(b, e, p))
      && (forall p :: p in ids ==> ids[p] == b.ids[p])
    else ids == b.ids
  }

  ghost predicate AgentAfter(b: Backend, e: Event, c: Backend) {
    if Fails(b, e) then c.agentDevices == map[]
    else if Publishes(b, e) then TellsAgent(c.agentDevices, e.objects.value, c.ids)
    else if Resolves(b, e) then e.path in c.ids && c.agentDevices == b.agentDevices[e.path := c.ids[e.path]]
    else c.agentDevices == b.agentDevices
  }

  ghost predicate AdaptersAfter(b: Backend, e: Event, c: Backend) {
    if Publishes(b, e) then NotesAdapters(c.deviceAdapters, c.adapters, e.objects.value)
    else if ChangesOwner(b, e) then c.deviceAdapters == map[] && c.adapters == {}
    else c.deviceAdapters == b.deviceAdapters && c.adapters == b.adapters
  }

  ghost predicate EmittedAfter(b: Backend, e: Event, c: Backend) {
    if Publishes(b, e) then
      && c.emitted != [] && c.emitted[..|c.emitted| - 1] == b.emitted
      && ShowsListed(c.emitted[|c.emitted| - 1], e.objects.value, c.ids)
    else if ChangesOwner(b, e) || Fails(b, e) then c.emitted == b.emitted + [Snapshot([], [], false)]
    else c.emitted == b.emitted
  }

  predicate RefreshAfter(b: Backend, e: Event, r: R.Refresh) {
    && r.owner == (if ChangesOwner(b, e) then NewOwner(e) else b.refresh.owner)
    && r.started == (if e.Starts? then true else if e.Stops? then false else b.refresh.started)
    && r.generation == b.refresh.generation + (if ChangesOwner(b, e) then 1 else 0)
    && r.revision == b.refresh.revision + (if Disturbs(b, e) then 1 else 0)
  }

  /** The refresh protocol takes the step that the event is for it. */
  predicate ProtocolAfter(b: Backend, e: Event, r: R.Refresh) {
    if ChangesOwner(b, e) then r == R.SetOwner(b.refresh.(started := !e.Stops?), NewOwner(e))
    else if Disturbs(b, e) then r == R.Changed(b.refresh)
    else if e.SnapshotReply? && e.at in b.refresh.calls then r == R.Answer(b.refresh, e.at, e.objects.Some?)
    else if e.Starts? then r == b.refresh.(started := true)
    else r == b.refresh
  }

  /** GetNameOwner is asked for once per start, and each answer is for one such call. */
  predicate CallsAfter(b: Backend, e: Event, nameCalls: multiset<nat>) {
    if e.Starts? && !b.refresh.started then nameCalls == b.nameCalls + multiset{b.refresh.generation}
    else if e.NameReply? then nameCalls == b.nameCalls - multiset{e.generation}
    else nameCalls == b.nameCalls
  }

  ghost predicate Does(b: Backend, e: Event, c: Backend) {
    && TableAfter(b, e, c.ids) && AgentAfter(b, e, c) && AdaptersAfter(b, e, c) && EmittedAfter(b, e, c)
    && RefreshAfter(b, e, c.refresh) && ProtocolAfter(b, e, c.refresh) && CallsAfter(b, e, c.nameCalls)
  }

  lemma OwnerKeepsRest(r: R.Refresh, owner: string)
    ensures var q := R.SetOwner(r, owner);
            q.owner == owner && q.started == r.started && q.generation == r.generation + 1 && q.revision == r.revision + 1
  {}

  /** A new owner is taken over, with the answer that told about it struck off. */
  lemma NewOwnerDoes(b: Backend, e: Event, nameCalls: multiset<nat>)
    requires ChangesOwner(b, e) && CallsAfter(b, e, nameCalls)
    ensures Does(b, e, Forget(b.(refresh := R.SetOwner(b.refresh.(started := !e.Stops?), NewOwner(e)), nameCalls := nameCalls)))
  {
    hide R.SetOwner, ListsAdapter, ListsDevice, CallsAfter;
    OwnerKeepsRest(b.refresh.(started := !e.Stops?), NewOwner(e));
    assert !Publishes(b, e) && !Fails(b, e) && !Resolves(b, e);
  }

  lemma OwnerEventDoes(b: Backend, e: Event)
    requires Enabled(b, e) && (e.NameReply? || e.OwnerChanges? || e.Stops?)
    ensures Does(b, e, Step(b, e))
  {
    hide R.SetOwner, ListsAdapter, ListsDevice, Forget, TableAfter, AgentAfter, AdaptersAfter, EmittedAfter, RefreshAfter, ProtocolAfter;
    if ChangesOwner(b, e) {
      var nameCalls := if e.NameReply? then b.nameCalls - multiset{e.generation} else b.nameCalls;
      assert b.refresh.(started := true) == b.refresh;
      NewOwnerDoes(b, e, nameCalls);
    } else {
      OwnerIgnored(b, e);
    }
  }

  lemma OwnerIgnored(b: Backend, e: Event)
    requires Enabled(b, e) && (e.NameReply? || e.OwnerChanges? || e.Stops?) && !ChangesOwner(b, e)
    ensures Does(b, e, Step(b, e))
  {
    hide R.SetOwner, R.Stop, SetOwner, ListsAdapter, ListsDevice;
  }

  lemma StartDoes(b: Backend)
    ensures Does(b, Starts, Step(b, Starts))
  {
    hide ListsAdapter, ListsDevice;
  }

  lemma ChangedKeepsRest(r: R.Refresh)
    ensures var q := R.Changed(r);
            q.owner == r.owner && q.started == r.started && q.generation == r.generation && q.revision == r.revision + 1
  {}

  lemma ChangeDoes(b: Backend, e: Event)
    requires Enabled(b, e) && (e.Signal? || e.OperationReply?)
    ensures Does(b, e, Step(b, e))
  {
    hide R.Changed, ListsAdapter, ListsDevice, R.VerdictOn;
    ChangedKeepsRest(b.refresh);
  }

  lemma RemovalDoes(b: Backend, e: Event)
    requires e.Removal?
    ensures Does(b, e, Step(b, e))
  {
    hide R.Changed, ListsAdapter, ListsDevice, R.VerdictOn;
    ChangedKeepsRest(b.refresh);
  }

  lemma AgentCallDoes(b: Backend, e: Event)
    requires Enabled(b, e) && e.AgentCall?
    ensures Does(b, e, Step(b, e))
  {
    hide R.Changed, ListsAdapter, ListsDevice, Unused, R.VerdictOn;
    ChangedKeepsRest(b.refresh);
  }

  lemma AnswerKeepsRest(r: R.Refresh, t: nat, ok: bool)
    requires t in r.calls
    ensures var q := R.Answer(r, t, ok);
            q.owner == r.owner && q.started == r.started && q.generation == r.generation && q.revision == r.revision
  {}

  lemma PublishTable(b: Backend, objects: seq<Object>, uuids: map<string, Id>)
    requires uuids.Keys == Live(objects) - b.ids.Keys
    ensures var ids := Publish(b, objects, uuids).ids;
            && (forall p :: p in ids <==> ListsAdapter(objects, p) || exists a :: ListsDevice(objects, p, a))
            && (forall p :: p in ids ==> if p in b.ids then ids[p] == b.ids[p] else p in uuids && ids[p] == uuids[p])
  {
    LiveListed(objects);
    hide Live, SnapshotOf, AgentTable, AdapterTable, Devices, Adapters, ListsAdapter, ListsDevice;
  }

  lemma ReplyDoes(b: Backend, t: nat, objects: Option<seq<Object>>, uuids: map<string, Id>)
    requires Enabled(b, SnapshotReply(t, objects, uuids))
    ensures Does(b, SnapshotReply(t, objects, uuids), Step(b, SnapshotReply(t, objects, uuids)))
  {
    hide R.Answer, Publish, Live, TellsAgent, NotesAdapters, ShowsListed, ListsAdapter, ListsDevice, FreshFor;
    AnswerKeepsRest(b.refresh, t, objects.Some?);
    if objects.Some? {
      var b' := b.(refresh := R.Answer(b.refresh, t, true));
      FreshKeys(b.ids, b.drawn, Live(objects.value), uuids);
      PublishTells(b', objects.value, uuids);
      PublishTable(b', objects.value, uuids);
      PublishKeepsRefresh(b', objects.value, uuids);
    }
  }

  lemma PublishKeepsRefresh(b: Backend, objects: seq<Object>, uuids: map<string, Id>)
    requires uuids.Keys == Live(objects) - b.ids.Keys
    ensures Publish(b, objects, uuids).refresh == b.refresh && Publish(b, objects, uuids).nameCalls == b.nameCalls
  {}

  /**
   In every run, each event changes owner, table, agent and adapters exactly as said, emits exactly that snapshot, and
   marks data asked for earlier as stale exactly when something may have changed.
   */
  lemma EveryEventDoesItsPart(events: seq<Event>, e: Event)
    requires Enabled(Run(events), e)
    ensures Does(Run(events), e, Step(Run(events), e))
  {
    hide Does, Step, Run;
    var b := Run(events);
    match e
    case NameReply(_, _) => OwnerEventDoes(b, e);
    case SnapshotReply(t, objects, uuids) => ReplyDoes(b, t, objects, uuids);
    case Starts => StartDoes(b);
    case OwnerChanges(_) => OwnerEventDoes(b, e);
    case Stops => OwnerEventDoes(b, e);
    case Removal(_, _, _, _) => RemovalDoes(b, e);
    case AgentCall(_, _, _) => AgentCallDoes(b, e);
    case _ => ChangeDoes(b, e);
  }

  /** The device named in answer to the owner: the one it was told about, or the one in the table, or a new one. */
  lemma NamedDevice(b: Backend, path: string, uuid: Id)
    ensures AgentNames(b, path, uuid) ==
            if path in b.agentDevices && b.agentDevices[path] != "" then b.agentDevices[path]
            else if path in b.ids then b.ids[path]
            else uuid
  {}

  /** At first the backend is not started, has no owner, and knows and has shown nothing. */
  lemma AtFirst()
    ensures var b := Run([]);
            && !b.refresh.started && b.refresh.owner == "" && !b.refresh.refreshing && b.refresh.calls == map[]
            && b.ids == map[] && b.agentDevices == map[] && b.deviceAdapters == map[] && b.adapters == {}
            && b.nameCalls == multiset{} && b.emitted == []
  {}
}
