/**
 What BlueZBackend.cpp does, as functions on its state: the same refresh protocol as UDisks2Backend over a table of
 lifetime IDs keyed by object path, and the paths under which the pairing agent knows devices.

 History: `drawn` holds every (path, ID) pair ever made, `nameCalls` the generations captured by GetNameOwner calls in
 flight, `emitted` the snapshots shown.
 */
module BlueZSpec {
  import opened LifetimeIds
  import opened Prelude
  import R = RefreshProtocol

  /** One entry of a GetManagedObjects reply: whether it is an adapter, and the adapter path when it is a device. */
  datatype Object = Object(path: string, isAdapter: bool, device: Option<string>)

  datatype DeviceRecord = DeviceRecord(id: Id, adapterId: Id)

  datatype Snapshot = Snapshot(adapters: seq<Id>, devices: seq<DeviceRecord>, available: bool)

  datatype Backend = Backend(
    refresh: R.Refresh, ids: map<string, Id>, adapters: set<string>, deviceAdapters: map<string, string>,
    agentDevices: map<string, Id>, nameCalls: multiset<nat>, drawn: set<(string, Id)>, emitted: seq<Snapshot>)

  const WITHDRAWN := Snapshot([], [], false)

  function Initial(): Backend {
    Backend(R.Idle(), map[], {}, map[], map[], multiset{}, {}, [])
  }

  // ---------------------------------------------------------------- decoding a reply

  function AdapterPaths(objects: seq<Object>): (paths: seq<string>)
    ensures forall p :: p in paths <==> exists o :: o in objects && o.isAdapter && o.path == p
  {
    if objects == [] then []
    else
      var n := |objects| - 1;
      assert objects == objects[..n] + [objects[n]];
      AdapterPaths(objects[..n]) + if objects[n].isAdapter then [objects[n].path] else []
  }

  /** A device counts only when its adapter is in the same reply. */
  predicate KnownDevice(o: Object, adapters: set<string>) {
    o.device.Some? && o.device.value in adapters
  }

  function Devices(objects: seq<Object>, adapters: set<string>): (devices: seq<Object>)
    ensures forall o :: o in devices <==> o in objects && KnownDevice(o, adapters)
  {
    if objects == [] then []
    else
      var n := |objects| - 1;
      assert objects == objects[..n] + [objects[n]];
      Devices(objects[..n], adapters) + if KnownDevice(objects[n], adapters) then [objects[n]] else []
  }

  function PathsOf(objects: seq<Object>): set<string> {
    set o | o in objects :: o.path
  }

  function Adapters(objects: seq<Object>): set<string> {
    set p | p in AdapterPaths(objects)
  }

  /** The adapters of the reply and the devices whose adapter is among them. */
  function Live(objects: seq<Object>): set<string> {
    Adapters(objects) + PathsOf(Devices(objects, Adapters(objects)))
  }

  function Lookup(ids: map<string, Id>, path: string): Id {
    if path in ids then ids[path] else ""
  }

  function AdapterIds(ids: map<string, Id>, paths: seq<string>): (r: seq<Id>)
    ensures |r| == |paths| && forall i :: 0 <= i < |r| ==> r[i] == Lookup(ids, paths[i])
  {
    seq(|paths|, i requires 0 <= i < |paths| => Lookup(ids, paths[i]))
  }

  function DeviceRecords(ids: map<string, Id>, devices: seq<Object>): (r: seq<DeviceRecord>)
    requires forall o :: o in devices ==> o.device.Some?
    ensures |r| == |devices|
    ensures forall i :: 0 <= i < |r| ==> r[i] == DeviceRecord(Lookup(ids, devices[i].path), Lookup(ids, devices[i].device.value))
  {
    seq(|devices|, i requires 0 <= i < |devices| =>
      DeviceRecord(Lookup(ids, devices[i].path), Lookup(ids, devices[i].device.value)))
  }

  function SnapshotOf(ids: map<string, Id>, objects: seq<Object>): Snapshot {
    Snapshot(AdapterIds(ids, AdapterPaths(objects)), DeviceRecords(ids, Devices(objects, Adapters(objects))), true)
  }

  /** What the agent is told: the devices of the snapshot by path. */
  function AgentTable(ids: map<string, Id>, devices: seq<Object>): (table: map<string, Id>)
    ensures table.Keys == PathsOf(devices) && forall p :: p in table ==> table[p] == Lookup(ids, p)
  {
    if devices == [] then map[]
    else
      var n := |devices| - 1;
      assert devices == devices[..n] + [devices[n]];
      AgentTable(ids, devices[..n])[devices[n].path := Lookup(ids, devices[n].path)]
  }

  function AdapterTable(devices: seq<Object>): (table: map<string, string>)
    requires forall o :: o in devices ==> o.device.Some?
    ensures table.Keys == PathsOf(devices)
  {
    if devices == [] then map[]
    else
      var n := |devices| - 1;
      assert devices == devices[..n] + [devices[n]];
      AdapterTable(devices[..n])[devices[n].path := devices[n].device.value]
  }

  // ---------------------------------------------------------------- transitions

  function Emit(b: Backend, s: Snapshot): Backend {
    b.(emitted := b.emitted + [s])
  }

  function Start(b: Backend): Backend {
    if b.refresh.started then b
    else b.(refresh := R.Start(b.refresh), nameCalls := b.nameCalls + multiset{b.refresh.generation})
  }

  /** Everything known about the old owner goes, except what the agent was told about devices. */
  function Forget(b: Backend): Backend {
    Emit(b.(ids := map[], adapters := {}, deviceAdapters := map[]), WITHDRAWN)
  }

  function SetOwner(b: Backend, owner: string): Backend {
    Forget(b.(refresh := R.SetOwner(b.refresh, owner)))
  }

  /** GetNameOwner is answered; an error means that there is no owner. */
  function NameAnswered(b: Backend, generation: nat, reply: Option<string>): Backend {
    var b' := b.(nameCalls := b.nameCalls - multiset{generation});
    if !b.refresh.started || generation != b.refresh.generation then b'
    else SetOwner(b', if reply.Some? then reply.value else "")
  }

  function OwnerChanged(b: Backend, owner: string): Backend {
    if b.refresh.started then SetOwner(b, owner) else b
  }

  function Stop(b: Backend): Backend {
    if b.refresh.started then Forget(b.(refresh := R.Stop(b.refresh))) else b
  }

  function Changed(b: Backend): Backend {
    b.(refresh := R.Changed(b.refresh))
  }

  /** A signal counts only when the present owner sent it. */
  function Signalled(b: Backend, sender: string): Backend {
    if sender == b.refresh.owner then Changed(b) else b
  }

  function DevicesOf(deviceAdapters: map<string, string>, adapter: string): set<string> {
    set d | d in deviceAdapters && deviceAdapters[d] == adapter
  }

  /** The paths whose IDs a removal signal ends: the path itself, and the devices of a removed adapter. */
  function Removed(deviceAdapters: map<string, string>, path: string, adapter: bool, device: bool): set<string> {
    (if adapter then DevicesOf(deviceAdapters, path) else {}) + if adapter || device then {path} else {}
  }

  function InterfacesRemoved(b: Backend, sender: string, path: string, adapter: bool, device: bool): Backend {
    if sender != b.refresh.owner then b
    else Changed(b.(ids := b.ids - Removed(b.deviceAdapters, path, adapter, device)))
  }

  /** An operation call is answered; its outcome may have changed anything. */
  function OperationAnswered(b: Backend, generation: nat): Backend {
    if generation == b.refresh.generation then Changed(b) else b
  }

  /** The GetManagedObjects call sent at moment t is answered; None stands for an error reply. */
  function Answered(b: Backend, t: nat, reply: Option<seq<Object>>, uuids: map<string, Id>): Backend
    requires t in b.refresh.calls
    requires reply.Some? ==> uuids.Keys == Live(reply.value) - b.ids.Keys
  {
    var b' := b.(refresh := R.Answer(b.refresh, t, reply.Some?));
    match R.VerdictOn(b.refresh, t, reply.Some?)
    case Dropped => b'
    case Superseded => b'
    case Failed => Emit(b'.(ids := map[], agentDevices := map[]), WITHDRAWN)
    case Published => Publish(b', reply.value, uuids)
  }

  function Publish(b: Backend, objects: seq<Object>, uuids: map<string, Id>): Backend
    requires uuids.Keys == Live(objects) - b.ids.Keys
  {
    var devices := Devices(objects, Adapters(objects));
    var ids := IdsAfter(b.ids, Live(objects), uuids);
    Emit(b.(ids := ids, adapters := Adapters(objects), deviceAdapters := AdapterTable(devices),
            agentDevices := AgentTable(ids, devices), drawn := b.drawn + uuids.Items),
         SnapshotOf(ids, objects))
  }

  /** The device the agent names for a path: what it was told, or an ID reserved on the spot. */
  function AgentNames(b: Backend, path: string, uuid: Id): Id {
    if Lookup(b.agentDevices, path) != "" then b.agentDevices[path] else if path in b.ids then b.ids[path] else uuid
  }

  /** A trusted agent call about a path; the resolver reserves an ID and asks for a refresh. */
  function AgentAsked(b: Backend, caller: string, path: string, uuid: Id): Backend {
    if b.refresh.owner == "" || caller != b.refresh.owner || Lookup(b.agentDevices, path) != "" then b
    else
      var id := AgentNames(b, path, uuid);
      Changed(b.(agentDevices := b.agentDevices[path := id], ids := b.ids[path := id],
                 drawn := if path in b.ids then b.drawn else b.drawn + {(path, uuid)}))
  }

  // ---------------------------------------------------------------- runs

  datatype Event =
    | Starts
    | NameReply(generation: nat, reply: Option<string>)
    | OwnerChanges(owner: string)
    | Signal(sender: string)
    | Removal(sender: string, path: string, adapter: bool, device: bool)
    | SnapshotReply(at: nat, objects: Option<seq<Object>>, uuids: map<string, Id>)
    | OperationReply(generation: nat)
    | AgentCall(caller: string, path: string, uuid: Id)
    | Stops

  predicate DistinctPaths(objects: seq<Object>) {
    forall i, j :: 0 <= i < j < |objects| ==> objects[i].path != objects[j].path
  }

  ghost predicate Unused(drawn: set<(string, Id)>, uuid: Id) {
    uuid != "" && forall d :: d in drawn ==> d.1 != uuid
  }

  /** Identifiers drawn are new, a reply lists each path once, and replies answer calls in flight. */
  ghost predicate Enabled(b: Backend, e: Event) {
    match e
    case NameReply(generation, _) => generation in b.nameCalls
    case SnapshotReply(t, reply, uuids) =>
      && t in b.refresh.calls
      && (reply.Some? ==> DistinctPaths(reply.value) && FreshFor(b.ids, b.drawn, Live(reply.value), uuids))
    case AgentCall(_, _, uuid) => Unused(b.drawn, uuid)
    case _ => true
  }

  ghost function Step(b: Backend, e: Event): Backend {
    if !Enabled(b, e) then b
    else
      match e
      case Starts => Start(b)
      case NameReply(generation, reply) => NameAnswered(b, generation, reply)
      case OwnerChanges(owner) => OwnerChanged(b, owner)
      case Signal(sender) => Signalled(b, sender)
      case Removal(sender, path, adapter, device) => InterfacesRemoved(b, sender, path, adapter, device)
      case SnapshotReply(t, reply, uuids) => Answered(b, t, reply, uuids)
      case OperationReply(generation) => OperationAnswered(b, generation)
      case AgentCall(caller, path, uuid) => AgentAsked(b, caller, path, uuid)
      case Stops => Stop(b)
  }

  ghost function Run(events: seq<Event>): Backend {
    if events == [] then Initial()
    else Step(Run(events[..|events| - 1]), events[|events| - 1])
  }
}
