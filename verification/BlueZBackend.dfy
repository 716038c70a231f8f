/** BlueZBackend.cpp as a class, without operations and discovery; each method is proved against BlueZSpec. */
module BlueZBackend {
  import opened LifetimeIds
  import opened Prelude
  import S = BlueZSpec
  import R = RefreshProtocol

  datatype History = History(calls: map<nat, R.SnapshotCall>, clock: nat, disturbedAt: nat, shown: R.Shown,
                             nameCalls: multiset<nat>, drawn: set<(string, Id)>)

  class Backend {
    var owner: string
    var started: bool
    var refreshing: bool
    var generation: nat
    var revision: nat
    var ids: map<string, Id>
    var adapters: set<string>
    var deviceAdapters: map<string, string>
    /** The device table of the pairing agent. */
    var agentDevices: map<string, Id>
    /** snapshotChanged signals in the order emitted. */
    var emitted: seq<S.Snapshot>
    ghost var history: History

    ghost function Protocol(): R.Refresh
      reads this
    {
      R.Refresh(started, owner, generation, revision, refreshing, history.calls, history.clock, history.disturbedAt,
                history.shown)
    }

    ghost function View(): S.Backend
      reads this
    {
      S.Backend(Protocol(), ids, adapters, deviceAdapters, agentDevices, history.nameCalls, history.drawn, emitted)
    }

    constructor ()
      ensures View() == S.Initial()
    {
      owner, started, refreshing, generation, revision := "", false, false, 0, 0;
      ids, adapters, deviceAdapters, agentDevices, emitted := map[], {}, map[], map[], [];
      history := History(map[], 1, 0, R.Shown(false, 0), multiset{}, {});
    }

    // -------------------------------------------------------------- the refresh protocol

    method Refresh()
      modifies this`refreshing, this`history
      ensures View() == old(View()).(refresh := R.Ask(old(Protocol())))
    {
      if refreshing || owner == "" {
        return;
      }
      refreshing := true;
      history := history.(calls := history.calls[history.clock := R.SnapshotCall(generation, revision)],
                          clock := history.clock + 1);
    }

    method Changed()
      modifies this`revision, this`refreshing, this`history
      ensures View() == S.Changed(old(View()))
    {
      history := history.(disturbedAt := history.clock, clock := history.clock + 1);
      revision := revision + 1;
      if started && owner != "" {
        Refresh();
      }
    }

    method SetOwner(newOwner: string)
      modifies this
      ensures View() == S.SetOwner(old(View()), newOwner)
    {
      hide R.Ask, R.Disown;
      Disown(newOwner);
      Forget();
      R.NobodyToAsk(Protocol());
      if owner != "" {
        Refresh();
      }
    }

    method Disown(newOwner: string)
      modifies this`generation, this`revision, this`refreshing, this`owner, this`history
      ensures View() == old(View()).(refresh := R.Disown(old(Protocol()), newOwner)) && owner == newOwner
    {
      history := history.(disturbedAt := history.clock, shown := R.Shown(false, history.clock), clock := history.clock + 1);
      generation := generation + 1;
      revision := revision + 1;
      refreshing := false;
      owner := newOwner;
    }

    method Forget()
      modifies this`ids, this`adapters, this`deviceAdapters, this`emitted
      ensures View() == S.Forget(old(View()))
    {
      ids := map[];
      adapters := {};
      deviceAdapters := map[];
      emitted := emitted + [S.WITHDRAWN];
    }

    method Start()
      modifies this`started, this`history
      ensures View() == S.Start(old(View()))
    {
      if started {
        return;
      }
      started := true;
      history := history.(nameCalls := history.nameCalls + multiset{generation});
    }

    /** GetNameOwner finished; `captured` is the generation its callback remembered. */
    method OnNameOwner(captured: nat, reply: Option<string>)
      modifies this
      ensures View() == S.NameAnswered(old(View()), captured, reply)
    {
      hide S.SetOwner;
      history := history.(nameCalls := history.nameCalls - multiset{captured});
      if !started || captured != generation {
        return;
      }
      SetOwner(if reply.Some? then reply.value else "");
    }

    method OnOwnerChanged(newOwner: string)
      modifies this
      ensures View() == S.OwnerChanged(old(View()), newOwner)
    {
      hide S.SetOwner;
      if started {
        SetOwner(newOwner);
      }
    }

    method Stop()
      modifies this
      ensures View() == S.Stop(old(View()))
    {
      hide R.SetOwner, S.Forget;
      if !started {
        return;
      }
      started := false;
      SetOwner("");
    }

    /** InterfacesAdded and PropertiesChanged. */
    method OnSignal(sender: string)
      modifies this`revision, this`refreshing, this`history
      ensures View() == S.Signalled(old(View()), sender)
    {
      if sender == owner {
        Changed();
      }
    }

    method OnInterfacesRemoved(sender: string, path: string, adapter: bool, device: bool)
      modifies this`ids, this`revision, this`refreshing, this`history
      ensures View() == S.InterfacesRemoved(old(View()), sender, path, adapter, device)
    {
      hide S.Changed;
      if sender != owner {
        return;
      }
      ghost var before := ids;
      if adapter {
        DropDevicesOf(path);
      }
      if adapter || device {
        ids := ids - {path};
      }
      assert ids == before - S.Removed(deviceAdapters, path, adapter, device);
      Changed();
    }

    method DropDevicesOf(path: string)
      modifies this`ids
      ensures ids == old(ids) - S.DevicesOf(deviceAdapters, path)
    {
      var rest := deviceAdapters.Keys;
      while rest != {}
        invariant rest <= deviceAdapters.Keys
        invariant ids == map k | k in old(ids) && !(k in deviceAdapters.Keys - rest && deviceAdapters[k] == path) :: old(ids)[k]
      {
        var d :| d in rest;
        if deviceAdapters[d] == path {
          ids := ids - {d};
        }
        rest := rest - {d};
      }
    }

    /** An operation call is answered under the generation it was sent in. */
    method OnOperationReply(captured: nat)
      modifies this`revision, this`refreshing, this`history
      ensures View() == S.OperationAnswered(old(View()), captured)
    {
      if captured == generation {
        Changed();
      }
    }

    /** The device resolver that the agent calls for a path it does not know. */
    method ReserveDevice(path: string, uuid: Id) returns (id: Id)
      modifies this`ids, this`revision, this`refreshing, this`history
      ensures id == if path in old(ids) then old(ids)[path] else uuid
      ensures View() == S.Changed(old(View()).(
        ids := old(ids)[path := id],
        drawn := if path in old(ids) then old(history).drawn else old(history).drawn + {(path, uuid)}))
    {
      hide S.Changed;
      if path !in ids {
        history := history.(drawn := history.drawn + {(path, uuid)});
      }
      id := IdFor(path, map[path := uuid]);
      assert ids == old(ids)[path := id];
      Changed();
    }

    /** A trusted agent call names a device. */
    method AgentDevice(caller: string, path: string, uuid: Id) returns (id: Id)
      modifies this`ids, this`agentDevices, this`revision, this`refreshing, this`history
      ensures View() == S.AgentAsked(old(View()), caller, path, uuid)
      ensures caller == owner != "" ==> id == S.AgentNames(old(View()), path, uuid)
    {
      if owner == "" || caller != owner {
        return "";
      }
      id := if path in agentDevices then agentDevices[path] else "";
      if id == "" {
        id := ReserveDevice(path, uuid);
        agentDevices := agentDevices[path := id];
      }
    }

    /** The GetManagedObjects call sent at moment t finished; its callback remembered generation and revision. */
    method OnSnapshotReply(ghost t: nat, atGeneration: nat, atRevision: nat, reply: Option<seq<S.Object>>,
                           uuids: map<string, Id>)
      requires t in history.calls && history.calls[t] == R.SnapshotCall(atGeneration, atRevision)
      requires reply.Some? ==> uuids.Keys == S.Live(reply.value) - ids.Keys
      modifies this
      ensures View() == S.Answered(old(View()), t, reply, uuids)
    {
      hide S.Publish, S.Live;
      history := history.(calls := history.calls - {t});
      if atGeneration != generation {
        return;
      }
      refreshing := false;
      if atRevision != revision {
        Refresh();
        return;
      }
      history := history.(shown := R.Shown(reply.Some?, t));
      if reply.None? {
        Withdraw();
      } else {
        Publish(reply.value, uuids);
      }
    }

    method Withdraw()
      modifies this`ids, this`agentDevices, this`emitted
      ensures View() == S.Emit(old(View()).(ids := map[], agentDevices := map[]), S.WITHDRAWN)
    {
      ids := map[];
      agentDevices := map[];
      emitted := emitted + [S.WITHDRAWN];
    }

    // -------------------------------------------------------------- publishing

    method IdFor(path: string, uuids: map<string, Id>) returns (id: Id)
      requires path in ids || path in uuids
      modifies this`ids
      ensures id == if path in old(ids) then old(ids)[path] else uuids[path]
      ensures ids == if path in old(ids) then old(ids) else old(ids)[path := uuids[path]]
    {
      if path !in ids {
        ids := ids[path := uuids[path]];
      }
      return ids[path];
    }

    /** `final` is the table once every live path has its ID: the old one where there was one. */
    static ghost predicate Final(before: map<string, Id>, uuids: map<string, Id>, final: map<string, Id>) {
      && uuids.Keys == final.Keys - before.Keys
      && forall k :: k in final ==> final[k] == if k in before then before[k] else uuids[k]
    }

    /** Paths met so far have their final ID; every other entry is still the old one. */
    static ghost predicate Naming(now: map<string, Id>, before: map<string, Id>, final: map<string, Id>, live: set<string>) {
      && live <= final.Keys && live <= now.Keys && before.Keys <= now.Keys
      && (forall k :: k in live ==> now[k] == final[k])
      && (forall k :: k in now && k !in live ==> k in before && now[k] == before[k])
    }

    static lemma NothingNamed(before: map<string, Id>, final: map<string, Id>)
      ensures Naming(before, before, final, {})
    {}

    /** Names one live path. */
    method Name(path: string, uuids: map<string, Id>, ghost before: map<string, Id>, ghost final: map<string, Id>, ghost live: set<string>)
      returns (id: Id)
      requires path in final && Final(before, uuids, final) && Naming(ids, before, final, live)
      modifies this`ids
      ensures Naming(ids, before, final, live + {path}) && id == S.Lookup(final, path)
    {
      id := IdFor(path, uuids);
    }

    method Publish(objects: seq<S.Object>, uuids: map<string, Id>)
      requires uuids.Keys == S.Live(objects) - ids.Keys
      modifies this`ids, this`adapters, this`deviceAdapters, this`agentDevices, this`emitted, this`history
      ensures View() == S.Publish(old(View()), objects, uuids)
    {
      ghost var final := IdsAfter(ids, S.Live(objects), uuids);
      LiveIs(objects, ids, uuids);
      hide S.Live, IdsAfter, S.AdapterTable, S.AgentTable, Final, S.Devices, S.Adapters, S.AdapterIds, S.DeviceRecords,
           S.PathsOf, S.AdapterPaths, S.Lookup, S.KnownDevice;
      var adapterIds, devices, told := Assign(objects, uuids, final);
      Tell(told, uuids, S.Snapshot(adapterIds, devices, true));
    }

    method Tell(told: map<string, Id>, ghost uuids: map<string, Id>, snapshot: S.Snapshot)
      modifies this`agentDevices, this`emitted, this`history
      ensures View() == old(View()).(agentDevices := told, drawn := old(history).drawn + uuids.Items,
                                     emitted := old(emitted) + [snapshot])
    {
      history := history.(drawn := history.drawn + uuids.Items);
      agentDevices := told;
      emitted := emitted + [snapshot];
    }

    /** Both passes over the reply, then the IDs of everything else go. */
    method Assign(objects: seq<S.Object>, uuids: map<string, Id>, ghost final: map<string, Id>)
      returns (adapterIds: seq<Id>, records: seq<S.DeviceRecord>, told: map<string, Id>)
      requires Final(ids, uuids, final)
      requires final.Keys == S.Adapters(objects) + S.PathsOf(S.Devices(objects, S.Adapters(objects)))
      modifies this`ids, this`adapters, this`deviceAdapters
      ensures ids == final && adapters == S.Adapters(objects)
      ensures deviceAdapters == S.AdapterTable(S.Devices(objects, S.Adapters(objects)))
      ensures adapterIds == S.AdapterIds(final, S.AdapterPaths(objects))
      ensures records == S.DeviceRecords(final, S.Devices(objects, S.Adapters(objects)))
      ensures told == S.AgentTable(final, S.Devices(objects, S.Adapters(objects)))
    {
      hide Naming, Final, S.PathsOf, S.Devices, S.Adapters, S.AdapterTable, S.AgentTable, S.AdapterIds, S.DeviceRecords;
      ghost var before := ids;
      var live;
      live, adapterIds := PublishAdapters(objects, uuids, final);
      live, records, told := PublishDevices(objects, uuids, before, final, live);
      KeptAreFinal(ids, before, final, live);
      DropDead(live);
    }

    static lemma LiveIs(objects: seq<S.Object>, before: map<string, Id>, uuids: map<string, Id>)
      requires uuids.Keys == S.Live(objects) - before.Keys
      ensures var final := IdsAfter(before, S.Live(objects), uuids);
              && Final(before, uuids, final)
              && final.Keys == S.Adapters(objects) + S.PathsOf(S.Devices(objects, S.Adapters(objects)))
    {}

    static lemma KeptAreFinal(now: map<string, Id>, before: map<string, Id>, final: map<string, Id>, live: set<string>)
      requires Naming(now, before, final, live) && live == final.Keys
      ensures live <= now.Keys && (map k | k in live :: now[k]) == final
    {}

    method PublishAdapters(objects: seq<S.Object>, uuids: map<string, Id>, ghost final: map<string, Id>)
      returns (live: set<string>, adapterIds: seq<Id>)
      requires Final(ids, uuids, final) && S.Adapters(objects) <= final.Keys
      modifies this`ids, this`adapters
      ensures adapters == live == S.Adapters(objects)
      ensures Naming(ids, old(ids), final, live)
      ensures adapterIds == S.AdapterIds(final, S.AdapterPaths(objects))
    {
      hide Naming, Final;
      ghost var before := ids;
      NothingNamed(before, final);
      live, adapterIds, adapters := {}, [], {};
      for n := 0 to |objects|
        invariant adapters == live == set p | p in S.AdapterPaths(objects[..n])
        invariant Naming(ids, before, final, live)
        invariant adapterIds == S.AdapterIds(final, S.AdapterPaths(objects[..n]))
      {
        assert objects[..n + 1][..n] == objects[..n];
        if objects[n].isAdapter {
          var path := objects[n].path;
          assert path in S.Adapters(objects) by { assert objects[n] in objects && path in S.AdapterPaths(objects); }
          var id := Name(path, uuids, before, final, live);
          live := live + {path};
          adapters := adapters + {path};
          adapterIds := adapterIds + [id];
        }
      }
      assert objects[..|objects|] == objects;
    }

    method PublishDevices(objects: seq<S.Object>, uuids: map<string, Id>, ghost before: map<string, Id>, ghost final: map<string, Id>, adapterPaths: set<string>)
      returns (live: set<string>, records: seq<S.DeviceRecord>, told: map<string, Id>)
      requires Final(before, uuids, final) && Naming(ids, before, final, adapterPaths) && adapters == adapterPaths
      requires final.Keys == adapterPaths + S.PathsOf(S.Devices(objects, adapterPaths))
      modifies this`ids, this`deviceAdapters
      ensures live == final.Keys && Naming(ids, before, final, live)
      ensures records == S.DeviceRecords(final, S.Devices(objects, adapterPaths))
      ensures deviceAdapters == S.AdapterTable(S.Devices(objects, adapterPaths))
      ensures told == S.AgentTable(final, S.Devices(objects, adapterPaths))
    {
      hide Naming, Final, S.AdapterTable, S.AgentTable, S.DeviceRecords, S.Lookup, S.PathsOf;
      NoDevices(final);
      ghost var devices: seq<S.Object> := [];
      live, records, told, deviceAdapters := adapterPaths, [], map[], map[];
      for n := 0 to |objects|
        invariant devices == S.Devices(objects[..n], adapterPaths)
        invariant live == adapterPaths + S.PathsOf(devices) && live <= final.Keys
        invariant Naming(ids, before, final, live)
        invariant records == S.DeviceRecords(final, devices)
        invariant deviceAdapters == S.AdapterTable(devices)
        invariant told == S.AgentTable(final, devices)
      {
        assert objects[..n + 1][..n] == objects[..n];
        var o := objects[n];
        if o.device.Some? && o.device.value in adapters {
          DeviceHasPath(objects, adapterPaths, o);
          OneMoreDevice(final, devices, o);
          OneMoreRecord(final, devices, o);
          devices := devices + [o];
          var id, adapterId := NameDevice(o, uuids, before, final, live);
          live := live + {o.path};
          deviceAdapters := deviceAdapters[o.path := o.device.value];
          records := records + [S.DeviceRecord(id, adapterId)];
          told := told[o.path := id];
        }
      }
      assert objects[..|objects|] == objects;
    }

    method NameDevice(o: S.Object, uuids: map<string, Id>, ghost before: map<string, Id>, ghost final: map<string, Id>, ghost live: set<string>)
      returns (id: Id, adapterId: Id)
      requires o.device.Some? && o.device.value in live && o.path in final && live <= final.Keys
      requires Final(before, uuids, final) && Naming(ids, before, final, live)
      modifies this`ids
      ensures Naming(ids, before, final, live + {o.path})
      ensures id == S.Lookup(final, o.path) && adapterId == S.Lookup(final, o.device.value)
    {
      hide Naming, Final;
      id := Name(o.path, uuids, before, final, live);
      adapterId := Name(o.device.value, uuids, before, final, live + {o.path});
      assert live + {o.path} + {o.device.value} == live + {o.path};
    }

    static lemma DeviceHasPath(objects: seq<S.Object>, adapters: set<string>, o: S.Object)
      requires o in objects && S.KnownDevice(o, adapters)
      ensures o.path in S.PathsOf(S.Devices(objects, adapters))
    {}

    static lemma NoDevices(final: map<string, Id>)
      ensures S.DeviceRecords(final, []) == [] && S.AdapterTable([]) == map[] && S.AgentTable(final, []) == map[]
      ensures S.PathsOf([]) == {}
    {}

    static lemma OneMoreDevice(final: map<string, Id>, devices: seq<S.Object>, o: S.Object)
      requires o.device.Some? && (forall d :: d in devices ==> d.device.Some?)
      ensures var longer := devices + [o];
              && S.PathsOf(longer) == S.PathsOf(devices) + {o.path}
              && S.AdapterTable(longer) == S.AdapterTable(devices)[o.path := o.device.value]
              && S.AgentTable(final, longer) == S.AgentTable(final, devices)[o.path := S.Lookup(final, o.path)]
    {
      assert (devices + [o])[..|devices|] == devices;
      hide S.Lookup;
    }

    static lemma OneMoreRecord(final: map<string, Id>, devices: seq<S.Object>, o: S.Object)
      requires o.device.Some? && (forall d :: d in devices ==> d.device.Some?)
      ensures S.DeviceRecords(final, devices + [o])
              == S.DeviceRecords(final, devices) + [S.DeviceRecord(S.Lookup(final, o.path), S.Lookup(final, o.device.value))]
    {
      hide S.Lookup;
    }

    method DropDead(live: set<string>)
      requires live <= ids.Keys
      modifies this`ids
      ensures ids == map k | k in live :: old(ids)[k]
    {
      var rest := ids.Keys;
      while rest != {}
        invariant rest <= old(ids).Keys
        invariant ids == map k | k in old(ids) && (k in live || k in rest) :: old(ids)[k]
      {
        var k :| k in rest;
        if k !in live {
          ids := ids - {k};
        }
        rest := rest - {k};
      }
    }
  }
}
