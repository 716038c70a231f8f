/** What every run of BlueZBackend keeps: the shared refresh protocol, lifetime IDs, and what the agent is told. */
module BlueZGuarantees {
  import opened BlueZSpec
  import opened LifetimeIds
  import opened Prelude
  import R = RefreshProtocol

  /** What the agent was told is about devices that once had these IDs. */
  ghost predicate AgentDrawn(agentDevices: map<string, Id>, drawn: set<(string, Id)>) {
    forall p :: p in agentDevices ==> agentDevices[p] != "" && (p, agentDevices[p]) in drawn
  }

  ghost predicate Invariant(b: Backend) {
    R.Invariant(b.refresh) && Sound(b.ids, b.drawn) && AgentDrawn(b.agentDevices, b.drawn)
  }

  // ---------------------------------------------------------------- the refresh protocol, instantiated

  /** Each backend event is one event of the refresh protocol, or none. */
  ghost predicate Refines(r: R.Refresh, r': R.Refresh) {
    r' == r || exists e :: r' == R.Step(r, e)
  }

  lemma StepRefines(b: Backend, e: Event)
    ensures Refines(b.refresh, Step(b, e).refresh)
  {
    hide R.SetOwner, R.Answer, R.Changed, R.Stop, SnapshotOf, AgentTable, AdapterTable, FreshFor, Live, IdsAfter;
    if Enabled(b, e) {
      match e {
        case Starts => assert R.Step(b.refresh, R.Starts) == R.Start(b.refresh);
        case NameReply(_, reply) =>
          var owner := if reply.Some? then reply.value else "";
          assert b.refresh.started ==> R.Step(b.refresh, R.OwnerAppears(owner)) == R.SetOwner(b.refresh, owner);
        case OwnerChanges(owner) => assert b.refresh.started ==> R.Step(b.refresh, R.OwnerAppears(owner)) == R.SetOwner(b.refresh, owner);
        case SnapshotReply(t, objects, _) => assert R.Step(b.refresh, R.Replies(t, objects.Some?)) == R.Answer(b.refresh, t, objects.Some?);
        case Stops => assert R.Step(b.refresh, R.Stops) == R.Stop(b.refresh);
        case _ => assert R.Step(b.refresh, R.SomethingChanges) == R.Changed(b.refresh);
      }
    }
  }

  // ---------------------------------------------------------------- lifetime IDs

  lemma AgentAskedKeepsIds(b: Backend, caller: string, path: string, uuid: Id)
    requires Sound(b.ids, b.drawn) && Unused(b.drawn, uuid)
    ensures var c := AgentAsked(b, caller, path, uuid);
            Sound(c.ids, c.drawn) && Respected(b.ids, b.drawn, c.ids, c.drawn)
  {
    var c := AgentAsked(b, caller, path, uuid);
    forall d | d in b.drawn && !Alive(b.ids, d.1) ensures !Alive(c.ids, d.1) {}
  }

  lemma PublishKeepsIds(b: Backend, objects: seq<Object>, uuids: map<string, Id>)
    requires Sound(b.ids, b.drawn) && FreshFor(b.ids, b.drawn, Live(objects), uuids)
    ensures var c := Publish(b, objects, uuids);
            Sound(c.ids, c.drawn) && Respected(b.ids, b.drawn, c.ids, c.drawn)
  {
    assert uuids.Keys == Live(objects) - b.ids.Keys;
    PublishingKeepsSound(b.ids, b.drawn, Live(objects), uuids);
    PublishingRespects(b.ids, b.drawn, Live(objects), uuids);
    hide Sound, Respected, FreshFor, SnapshotOf, AgentTable, AdapterTable, Devices, Adapters, Live, IdsAfter;
  }

  lemma AnsweredKeepsIds(b: Backend, t: nat, objects: Option<seq<Object>>, uuids: map<string, Id>)
    requires Sound(b.ids, b.drawn) && t in b.refresh.calls
    requires objects.Some? ==> FreshFor(b.ids, b.drawn, Live(objects.value), uuids)
    ensures var c := Answered(b, t, objects, uuids);
            Sound(c.ids, c.drawn) && Respected(b.ids, b.drawn, c.ids, c.drawn)
  {
    FewerRespect(b.ids, b.drawn, b.ids);
    FewerRespect(b.ids, b.drawn, map[]);
    if objects.Some? {
      assert uuids.Keys == Live(objects.value) - b.ids.Keys;
      PublishKeepsIds(b.(refresh := R.Answer(b.refresh, t, true)), objects.value, uuids);
    }
    hide Sound, Respected, FreshFor, Publish, Live, R.Answer;
  }

  lemma StepKeepsIds(b: Backend, e: Event)
    requires Sound(b.ids, b.drawn)
    ensures var c := Step(b, e); Sound(c.ids, c.drawn) && Respected(b.ids, b.drawn, c.ids, c.drawn)
  {
    var c := Step(b, e);
    FewerRespect(b.ids, b.drawn, b.ids);
    FewerRespect(b.ids, b.drawn, map[]);
    hide Sound, Respected, SnapshotOf, AgentTable, AdapterTable, Devices, Adapters, Unused, AgentAsked, R.SetOwner, R.Answer, R.Changed, R.Stop,
         Answered;
    if Enabled(b, e) {
      match e {
        case Removal(_, path, adapter, device) => FewerRespect(b.ids, b.drawn, b.ids - Removed(b.deviceAdapters, path, adapter, device));
        case SnapshotReply(t, objects, uuids) => AnsweredKeepsIds(b, t, objects, uuids);
        case AgentCall(caller, path, uuid) => AgentAskedKeepsIds(b, caller, path, uuid);
        case _ =>
      }
    }
  }

  lemma PublishKeepsAgent(b: Backend, objects: seq<Object>, uuids: map<string, Id>)
    requires Sound(b.ids, b.drawn) && FreshFor(b.ids, b.drawn, Live(objects), uuids)
    ensures AgentDrawn(Publish(b, objects, uuids).agentDevices, Publish(b, objects, uuids).drawn)
  {
    assert uuids.Keys == Live(objects) - b.ids.Keys;
    DevicesAreNamed(b, objects, uuids);
    PublishingKeepsSound(b.ids, b.drawn, Live(objects), uuids);
    hide FreshFor, IdsAfter, Live, Adapters, SnapshotOf, AdapterTable;
  }

  lemma StepKeepsAgent(b: Backend, e: Event)
    requires Sound(b.ids, b.drawn) && AgentDrawn(b.agentDevices, b.drawn)
    ensures AgentDrawn(Step(b, e).agentDevices, Step(b, e).drawn)
  {
    hide SnapshotOf, AgentTable, AdapterTable, Publish, R.SetOwner, R.Answer, R.Changed, R.Stop;
    if Enabled(b, e) {
      match e {
        case SnapshotReply(t, objects, uuids) =>
          if objects.Some? {
            PublishKeepsAgent(b.(refresh := R.Answer(b.refresh, t, true)), objects.value, uuids);
          }
          hide FreshFor, Sound, Live;
        case AgentCall(caller, path, uuid) => hide Answered;
        case _ => hide AgentAsked, Answered;
      }
    }
  }

  lemma {:induction false} EveryRunKeepsInvariant(events: seq<Event>)
    ensures Invariant(Run(events))
  {
    hide R.Invariant, Sound, AgentDrawn;
    if events == [] {
      InitialHolds();
    } else {
      var b, e := Run(events[..|events| - 1]), events[|events| - 1];
      EveryRunKeepsInvariant(events[..|events| - 1]);
      StepKeepsIds(b, e);
      StepKeepsAgent(b, e);
      StepRefines(b, e);
      if Step(b, e).refresh != b.refresh {
        var p :| Step(b, e).refresh == R.Step(b.refresh, p);
        R.StepKeeps(b.refresh, p);
      }
    }
  }

  lemma InitialHolds()
    ensures Invariant(Initial())
  {}

  /** The refresh protocol holds here too: one call in flight, only undisturbed data shown, no change lost. */
  lemma RefreshIsFaithful(events: seq<Event>)
    ensures R.Faithful(Run(events).refresh)
  {
    EveryRunKeepsInvariant(events);
    R.InvariantIsFaithful(Run(events).refresh);
  }

  lemma {:induction false} LaterEventsRespect(events: seq<Event>, more: seq<Event>)
    ensures var b, c := Run(events), Run(events + more); Respected(b.ids, b.drawn, c.ids, c.drawn)
  {
    hide Step, Sound;
    if more == [] {
      assert events + more == events;
    } else {
      var n := |more| - 1;
      assert (events + more)[..|events| + n] == events + more[..n];
      LaterEventsRespect(events, more[..n]);
      EveryRunKeepsInvariant(events + more[..n]);
      StepKeepsIds(Run(events + more[..n]), more[n]);
    }
  }

  /** An ID that has left the table, for whatever reason, never comes back. */
  lemma RetiredIdsNeverReturn(events: seq<Event>, more: seq<Event>, path: string, id: Id)
    requires (path, id) in Run(events).drawn && id !in Run(events).ids.Values
    ensures id !in Run(events + more).ids.Values
  {
    LaterEventsRespect(events, more);
    assert (path, id).1 == id;
    assert !Alive(Run(events).ids, id);
  }

  lemma IdsAreNeverShared(events: seq<Event>, path: string, path': string, id: Id)
    requires (path, id) in Run(events).drawn && (path', id) in Run(events).drawn
    ensures path == path'
  {
    EveryRunKeepsInvariant(events);
    assert (path, id).1 == (path', id).1;
  }

  /**
   Right after a snapshot is published the table names exactly its adapters and the devices on them, and each device
   record names an adapter of the same snapshot.
   */
  lemma PublishedTableIsTheSnapshot(b: Backend, t: nat, objects: seq<Object>, uuids: map<string, Id>)
    requires Sound(b.ids, b.drawn) && t in b.refresh.calls && FreshFor(b.ids, b.drawn, Live(objects), uuids)
    requires R.VerdictOn(b.refresh, t, true).Published?
    ensures var c := Answered(b, t, Some(objects), uuids);
            var s := c.emitted[|c.emitted| - 1];
            && c.ids.Keys == Live(objects)
            && s.available
            && (forall d :: d in s.devices ==> d.id != "" && d.adapterId in s.adapters)
  {
    DevicesAreNamed(b, objects, uuids);
    assert uuids.Keys == Live(objects) - b.ids.Keys;
    hide R.Answer, FreshFor, Sound, AgentTable, AdapterTable, Live, IdsAfter, Adapters;
    RecordsNameTheirAdapter(IdsAfter(b.ids, Live(objects), uuids), objects);
  }

  lemma RecordsNameTheirAdapter(ids: map<string, Id>, objects: seq<Object>)
    requires forall o :: o in Devices(objects, Adapters(objects)) ==>
               o.path in ids && ids[o.path] != "" && o.device.value in AdapterPaths(objects)
    ensures var s := SnapshotOf(ids, objects); forall d :: d in s.devices ==> d.id != "" && d.adapterId in s.adapters
  {
    hide Adapters;
    var s := SnapshotOf(ids, objects);
    var devices := Devices(objects, Adapters(objects));
    forall d | d in s.devices ensures d.id != "" && d.adapterId in s.adapters {
      var i :| 0 <= i < |s.devices| && s.devices[i] == d;
      assert devices[i] in devices;
      var j :| 0 <= j < |AdapterPaths(objects)| && AdapterPaths(objects)[j] == devices[i].device.value;
      assert s.adapters[j] == d.adapterId;
    }
  }

  /** The agent is told exactly the devices of the snapshot, under the same IDs. */
  lemma AgentKnowsTheSnapshot(b: Backend, t: nat, objects: seq<Object>, uuids: map<string, Id>)
    requires t in b.refresh.calls && FreshFor(b.ids, b.drawn, Live(objects), uuids)
    requires R.VerdictOn(b.refresh, t, true).Published?
    ensures var c := Answered(b, t, Some(objects), uuids);
            && (forall p :: p in c.agentDevices <==> exists o :: o in objects && KnownDevice(o, Adapters(objects)) && o.path == p)
            && (forall p :: p in c.agentDevices ==> p in c.ids && c.agentDevices[p] == c.ids[p])
  {
    AgentTableIsSynced(b.ids, objects, uuids);
    hide R.Answer, SnapshotOf, AdapterTable, Live, IdsAfter, Adapters;
  }

  lemma DevicesAreNamed(b: Backend, objects: seq<Object>, uuids: map<string, Id>)
    requires Sound(b.ids, b.drawn) && FreshFor(b.ids, b.drawn, Live(objects), uuids)
    ensures var ids := IdsAfter(b.ids, Live(objects), uuids);
            && ids.Keys == Live(objects)
            && (forall o :: o in Devices(objects, Adapters(objects)) ==>
                  && o.path in ids && ids[o.path] != "" && o.device.value in ids
                  && o.device.value in AdapterPaths(objects))
  {
    hide Adapters;
    var ids := IdsAfter(b.ids, Live(objects), uuids);
    PublishingKeepsSound(b.ids, b.drawn, Live(objects), uuids);
    AdaptersAreListed(objects);
    forall o | o in Devices(objects, Adapters(objects)) ensures o.path in ids && ids[o.path] != "" {
      assert o.path in Live(objects);
      assert (o.path, ids[o.path]) in b.drawn + uuids.Items;
    }
  }

  lemma AdaptersAreListed(objects: seq<Object>)
    ensures forall p :: p in Adapters(objects) <==> p in AdapterPaths(objects)
  {}

  // ---------------------------------------------------------------- what the agent is told

  /** Every device the agent was told about is in the table under the same ID. */
  ghost predicate Synced(b: Backend) {
    forall p :: p in b.agentDevices ==> p in b.ids && b.ids[p] == b.agentDevices[p]
  }

  /** The event ends IDs that the agent goes on knowing. */
  ghost predicate Outdates(b: Backend, e: Event) {
    match e
    case NameReply(generation, _) => b.refresh.started && generation == b.refresh.generation && b.agentDevices != map[]
    case OwnerChanges(_) => b.refresh.started && b.agentDevices != map[]
    case Stops => b.refresh.started && b.agentDevices != map[]
    case Removal(sender, path, adapter, device) =>
      sender == b.refresh.owner && exists p :: p in b.agentDevices && p in Removed(b.deviceAdapters, path, adapter, device)
    case _ => false
  }

  /**
   From a state where the agent's devices are up to date, an event leaves them outdated exactly when it ends the owner's
   IDs or removes one of the devices.
   */
  lemma AgentOutdatedExactly(b: Backend, e: Event)
    requires Invariant(b) && Synced(b) && Enabled(b, e)
    ensures Synced(Step(b, e)) <==> !Outdates(b, e)
  {
    hide R.Invariant, R.SetOwner, R.Changed, R.Stop, Sound, SnapshotOf, AdapterTable;
    match e {
      case SnapshotReply(t, objects, uuids) =>
        hide R.Answer;
        if objects.Some? && R.VerdictOn(b.refresh, t, true).Published? {
          AgentTableIsSynced(b.ids, objects.value, uuids);
        }
      case Removal(sender, path, adapter, device) =>
      case AgentCall(caller, path, uuid) =>
      case _ => hide AgentAsked, Answered;
        if b.agentDevices != map[] { var p :| p in b.agentDevices; }
    }
  }

  lemma AgentTableIsSynced(ids: map<string, Id>, objects: seq<Object>, uuids: map<string, Id>)
    requires uuids.Keys == Live(objects) - ids.Keys
    ensures var ids' := IdsAfter(ids, Live(objects), uuids);
            var table := AgentTable(ids', Devices(objects, Adapters(objects)));
            forall p :: p in table ==> p in ids' && ids'[p] == table[p]
  {}

  /** Under the invariant, an entry that disagrees with the table names a retired ID, and the other way round. */
  lemma EntryIsLiveExactly(b: Backend, path: string)
    requires Sound(b.ids, b.drawn) && AgentDrawn(b.agentDevices, b.drawn) && path in b.agentDevices
    ensures b.agentDevices[path] in b.ids.Values <==> path in b.ids && b.ids[path] == b.agentDevices[path]
  {
    hide Sound;
    if b.agentDevices[path] in b.ids.Values {
      DrawnOnce(b.ids, b.drawn, path, b.agentDevices[path]);
    }
  }

  // ---------------------------------------------------------------- when the agent names a retired device

  /** A reply that ends with the agent being told what the table holds. */
  ghost predicate Refreshes(b: Backend, e: Event) {
    e.SnapshotReply? && e.at in b.refresh.calls && R.VerdictOn(b.refresh, e.at, e.objects.Some?) in {R.Failed, R.Published}
  }

  /** Since the last reply that was published or failed, some event ended IDs that the agent goes on knowing. */
  ghost predicate Outdated(events: seq<Event>) {
    events != []
    && var before, e := events[..|events| - 1], events[|events| - 1];
       if !Enabled(Run(before), e) then Outdated(before)
       else !Refreshes(Run(before), e) && (Outdated(before) || Outdates(Run(before), e))
  }

  lemma RefreshingSyncs(b: Backend, e: Event)
    requires Enabled(b, e) && Refreshes(b, e)
    ensures Synced(Step(b, e))
  {
    hide R.Answer, SnapshotOf, AdapterTable, AgentTable, FreshFor, Live, Devices, Adapters, IdsAfter;
    if e.objects.Some? {
      assert e.uuids.Keys == Live(e.objects.value) - b.ids.Keys by { FreshKeys(b.ids, b.drawn, Live(e.objects.value), e.uuids); }
      AgentTableIsSynced(b.ids, e.objects.value, e.uuids);
    }
  }

  lemma FreshKeys(ids: map<string, Id>, drawn: set<(string, Id)>, live: set<string>, uuids: map<string, Id>)
    requires FreshFor(ids, drawn, live, uuids)
    ensures uuids.Keys == live - ids.Keys
  {}

  /** The agent's entries stay as they are until the next refresh, unless they are new. */
  lemma EntriesStay(b: Backend, e: Event, path: string)
    requires AgentDrawn(b.agentDevices, b.drawn) && path in b.agentDevices && !Refreshes(b, e)
    ensures path in Step(b, e).agentDevices && Step(b, e).agentDevices[path] == b.agentDevices[path]
  {
    hide R.SetOwner, R.Answer, R.Changed, R.Stop, Publish, FreshFor, Live, Unused;
  }

  lemma OutdatedStays(b: Backend, e: Event)
    requires Invariant(b) && !Synced(b) && !Refreshes(b, e)
    ensures !Synced(Step(b, e))
  {
    var path :| path in b.agentDevices && !(path in b.ids && b.ids[path] == b.agentDevices[path]);
    var c, id := Step(b, e), b.agentDevices[path];
    EntryIsLiveExactly(b, path);
    EntriesStay(b, e, path);
    StepKeepsIds(b, e);
    StepKeepsAgent(b, e);
    hide Step, Sound, R.Invariant;
    assert (path, id) in b.drawn && !Alive(b.ids, (path, id).1);
    EntryIsLiveExactly(c, path);
    assert id !in c.ids.Values;
  }

  /** In every run: the agent's devices are up to date exactly when no event has outdated them since the last refresh. */
  lemma {:induction false} OutdatedExactly(events: seq<Event>)
    ensures Synced(Run(events)) <==> !Outdated(events)
  {
    hide Step, Enabled, Synced, Outdates, Refreshes;
    if events == [] {
      InitiallySynced();
    } else {
      var before, e := events[..|events| - 1], events[|events| - 1];
      var b := Run(before);
      OutdatedExactly(before);
      EveryRunKeepsInvariant(before);
      if !Enabled(b, e) {
        DisabledLeavesAlone(b, e);
      } else if Refreshes(b, e) {
        RefreshingSyncs(b, e);
      } else if Synced(b) {
        AgentOutdatedExactly(b, e);
      } else {
        OutdatedStays(b, e);
      }
    }
  }

  lemma InitiallySynced()
    ensures Synced(Run([]))
  {}

  lemma DisabledLeavesAlone(b: Backend, e: Event)
    requires !Enabled(b, e)
    ensures Step(b, e) == b
  {}

  /** Whatever identifier might be drawn, the agent names a device for the path whose ID has left the table. */
  ghost predicate NamesRetired(b: Backend, path: string) {
    forall uuid :: (path, AgentNames(b, path, uuid)) in b.drawn && AgentNames(b, path, uuid) !in b.ids.Values
  }

  lemma NamesRetiredEntry(b: Backend, path: string)
    requires Sound(b.ids, b.drawn) && AgentDrawn(b.agentDevices, b.drawn)
    ensures NamesRetired(b, path) <==> path in b.agentDevices && !(path in b.ids && b.ids[path] == b.agentDevices[path])
  {
    if path in b.agentDevices {
      EntryIsLiveExactly(b, path);
      assert AgentNames(b, path, "") == b.agentDevices[path];
    } else {
      assert AgentNames(b, path, "") == if path in b.ids then b.ids[path] else "";
      assert (path, "") !in b.drawn by { assert (path, "").1 == ""; }
    }
  }

  /** In every run: the agent names a retired device for some path exactly when its devices have been outdated. */
  lemma AgentNamesRetiredExactly(events: seq<Event>)
    ensures (exists path :: NamesRetired(Run(events), path)) <==> Outdated(events)
  {
    var b := Run(events);
    EveryRunKeepsInvariant(events);
    OutdatedExactly(events);
    hide Outdated, NamesRetired, R.Invariant, Run;
    forall path
      ensures NamesRetired(b, path) <==> path in b.agentDevices && !(path in b.ids && b.ids[path] == b.agentDevices[path])
    {
      NamesRetiredEntry(b, path);
    }
  }

  /** In every run: the ID named in answer to the owner is in the table right after the call, unless it is a retired one. */
  lemma AgentNamesLiveExactly(events: seq<Event>, path: string, uuid: Id)
    requires Run(events).refresh.owner != "" && Unused(Run(events).drawn, uuid)
    ensures var b := Run(events);
            AgentNames(b, path, uuid) in AgentAsked(b, b.refresh.owner, path, uuid).ids.Values <==> !NamesRetired(b, path)
  {
    var b := Run(events);
    EveryRunKeepsInvariant(events);
    NamesRetiredEntry(b, path);
    hide NamesRetired, R.Invariant, R.Changed, Run;
    var c := AgentAsked(b, b.refresh.owner, path, uuid);
    if path in b.agentDevices {
      EntryIsLiveExactly(b, path);
    } else {
      assert c.ids[path] == AgentNames(b, path, uuid);
    }
  }

  /**
   A new owner of the service can ask about a path of the old one before the first snapshot, and the agent then names the
   device of the old owner, whose ID is retired.
   */
  lemma AgentCanNameARetiredDevice() returns (events: seq<Event>)
    ensures NamesRetired(Run(events), "/dev") && Run(events).refresh.owner != "" && Run(events).refresh.refreshing
  {
    var objects := [Object("/hci", true, None), Object("/dev", false, Some("/hci"))];
    var uuids := map["/hci" := "a", "/dev" := "b"];
    var e1, e2, e3, e4 := Starts, OwnerChanges(":1.7"), SnapshotReply(2, Some(objects), uuids), OwnerChanges(":1.9");
    assert Run([]) == Initial();
    FirstOwnerPublishes(objects, uuids);
    OwnerLeavesAgentBehind(Step(Step(Step(Initial(), e1), e2), e3));
    hide Step, Run, NamesRetired;
    RunOneMore([], e1);
    RunOneMore([e1], e2);
    RunOneMore([e1, e2], e3);
    RunOneMore([e1, e2, e3], e4);
    assert [] + [e1] == [e1] && [e1] + [e2] == [e1, e2] && [e1, e2] + [e3] == [e1, e2, e3]
           && [e1, e2, e3] + [e4] == [e1, e2, e3, e4];
    events := [e1, e2, e3, e4];
  }

  lemma RunOneMore(events: seq<Event>, e: Event)
    ensures Run(events + [e]) == Step(Run(events), e)
  {
    assert (events + [e])[..|events|] == events;
  }

  lemma FirstOwnerPublishes(objects: seq<Object>, uuids: map<string, Id>)
    requires objects == [Object("/hci", true, None), Object("/dev", false, Some("/hci"))]
    requires uuids == map["/hci" := "a", "/dev" := "b"]
    ensures var c := Step(Step(Step(Initial(), Starts), OwnerChanges(":1.7")), SnapshotReply(2, Some(objects), uuids));
            && c.refresh.started && c.agentDevices == map["/dev" := "b"] && ("/dev", "b") in c.drawn
  {
    hide SnapshotOf, AdapterTable, Live, Devices, Adapters;
    var b := Step(Step(Initial(), Starts), OwnerChanges(":1.7"));
    LiveOfTwo(objects);
    assert b.refresh.calls == map[2 := R.SnapshotCall(1, 1)] && b.refresh.generation == 1 && b.refresh.revision == 1;
    assert b.ids == map[] && b.drawn == {};
    assert Enabled(b, SnapshotReply(2, Some(objects), uuids));
    assert R.VerdictOn(b.refresh, 2, true).Published?;
    assert ("/dev", uuids["/dev"]) in uuids.Items;
  }

  lemma OwnerLeavesAgentBehind(b: Backend)
    requires b.refresh.started && b.agentDevices == map["/dev" := "b"] && ("/dev", "b") in b.drawn
    ensures var c := Step(b, OwnerChanges(":1.9"));
            NamesRetired(c, "/dev") && c.refresh.owner != "" && c.refresh.refreshing
  {}

  lemma LiveOfTwo(objects: seq<Object>)
    requires objects == [Object("/hci", true, None), Object("/dev", false, Some("/hci"))]
    ensures Live(objects) == {"/hci", "/dev"} && DistinctPaths(objects)
    ensures Devices(objects, Adapters(objects)) == [objects[1]]
  {
    assert objects[..1] == [objects[0]] && objects[..1][..0] == [];
    assert AdapterPaths(objects[..1]) == ["/hci"];
    assert AdapterPaths(objects) == ["/hci"];
    assert Adapters(objects) == {"/hci"};
    assert Devices(objects[..1], {"/hci"}) == [];
    assert Devices(objects, {"/hci"}) == [objects[1]];
  }
}
