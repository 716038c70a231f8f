/**
 What UDisks2Backend does, as functions on its state: the refresh protocol carrying a table of lifetime IDs, results
 held back until fresh topology is out, and operation calls in flight.

 History: `drawn` holds every (object interface, ID) pair ever made. `operations` is the bag of operation calls in
 flight keyed by the moment each was sent, `immediate` the failures queued in the event loop, `nameCalls` the
 generations captured by GetNameOwner calls in flight.
 */
module UDisksSpec {
  import opened Prelude
  import opened StorageTypes
  import opened LifetimeIds
  import BackingChain
  import R = RefreshProtocol

  datatype Interface = DriveInterface | BlockInterface | OtherInterface

  /** The key path#interface of `ids_`; D-Bus paths contain no '#', so the pair is recoverable. */
  datatype Key = Key(path: string, interface: Interface)

  datatype DriveFacts = DriveFacts(siblingId: string, canEject: bool, canPowerOff: bool)

  /** `filesystem` holds the mount points when the object has a Filesystem interface. */
  datatype BlockFacts = BlockFacts(drivePath: string, backingPath: string, tablePath: string,
                                   filesystem: Option<seq<string>>)

  /** One entry of a GetManagedObjects reply; a reply lists each path once. */
  datatype Object = Object(path: string, drive: Option<DriveFacts>, block: Option<BlockFacts>, loop: bool)

  /** A call of the operation's method on the object at `path`; `result` is what its callback remembers. */
  datatype OperationCall = OperationCall(generation: nat, path: string, result: Result)

  /** A result waiting for fresh topology; `arrivedAt` is the moment its reply arrived. */
  datatype Completion = Completion(result: Result, arrivedAt: nat)

  datatype Signal = SnapshotChanged(drives: seq<Drive>, volumes: seq<Volume>, available: bool)
                  | OperationFinished(result: Result)

  datatype Backend = Backend(service: string, refresh: R.Refresh, ids: map<Key, Id>, completions: seq<Completion>,
                             operations: map<nat, OperationCall>, immediate: multiset<Result>, nameCalls: multiset<nat>,
                             drawn: set<(Key, Id)>)

  /** A step's new state and the signals it emits, in order. */
  datatype Outcome = Outcome(state: Backend, signals: seq<Signal>)

  const WITHDRAWN: Signal := SnapshotChanged([], [], false)

  function Initial(service: string): Backend {
    Backend(service, R.Idle(), map[], [], map[], multiset{}, multiset{}, {})
  }

  // ---------------------------------------------------------------- decoding a reply

  predicate DistinctPaths(objects: seq<Object>) {
    forall i, j :: 0 <= i < j < |objects| ==> objects[i].path != objects[j].path
  }

  function KeysOf(o: Object): set<Key> {
    (if o.drive.Some? then {Key(o.path, DriveInterface)} else {})
    + (if o.block.Some? then {Key(o.path, BlockInterface)} else {})
  }

  /** The snapshot's Drive and Block interfaces. */
  function Live(objects: seq<Object>): (r: set<Key>)
    ensures forall k :: k in r <==> exists o :: o in objects && k in KeysOf(o)
  {
    if objects == [] then {}
    else
      assert objects == objects[..|objects| - 1] + [objects[|objects| - 1]];
      Live(objects[..|objects| - 1]) + KeysOf(objects[|objects| - 1])
  }

  function Lookup(ids: map<Key, Id>, key: Key): Id {
    if key in ids then ids[key] else ""
  }

  function DriveRecord(ids: map<Key, Id>, o: Object): Drive
    requires o.drive.Some?
  {
    Drive(Lookup(ids, Key(o.path, DriveInterface)), o.drive.value.siblingId, o.drive.value.canEject,
          o.drive.value.canPowerOff)
  }

  predicate LoopTable(objects: seq<Object>, tablePath: string) {
    tablePath != "" && exists o :: o in objects && o.path == tablePath && o.loop
  }

  function VolumeRecord(ids: map<Key, Id>, objects: seq<Object>, o: Object): Volume
    requires o.block.Some?
  {
    var block := o.block.value;
    var mounts := if block.filesystem.Some? then block.filesystem.value else [];
    Volume(Lookup(ids, Key(o.path, BlockInterface)), Lookup(ids, Key(block.drivePath, DriveInterface)),
           Lookup(ids, Key(block.backingPath, BlockInterface)), mounts, o.loop || LoopTable(objects, block.tablePath),
           block.filesystem.Some? && mounts == [], block.filesystem.Some? && mounts != [])
  }

  function DrivesOf(ids: map<Key, Id>, part: seq<Object>): seq<Drive> {
    if part == [] then []
    else
      var o := part[|part| - 1];
      DrivesOf(ids, part[..|part| - 1]) + if o.drive.Some? then [DriveRecord(ids, o)] else []
  }

  /** The objects of `part` that have a Block interface. */
  function Blocks(part: seq<Object>): (r: seq<Object>)
    ensures forall o :: o in r <==> o in part && o.block.Some?
    ensures forall i :: 0 <= i < |r| ==> r[i].block.Some?
  {
    if part == [] then []
    else
      var o := part[|part| - 1];
      assert part == part[..|part| - 1] + [o];
      Blocks(part[..|part| - 1]) + if o.block.Some? then [o] else []
  }

  /** The decoded volumes of `part`, before drive and loop are inherited along backing devices. */
  function VolumesOf(ids: map<Key, Id>, objects: seq<Object>, part: seq<Object>): (r: seq<Volume>)
    ensures |r| == |Blocks(part)|
    ensures forall i :: 0 <= i < |r| ==> r[i] == VolumeRecord(ids, objects, Blocks(part)[i])
  {
    seq(|Blocks(part)|, i requires 0 <= i < |Blocks(part)| => VolumeRecord(ids, objects, Blocks(part)[i]))
  }

  // ---------------------------------------------------------------- transitions

  function Start(b: Backend): Backend {
    if b.refresh.started then b
    else b.(refresh := R.Start(b.refresh), nameCalls := b.nameCalls + multiset{b.refresh.generation})
  }

  function SetOwner(b: Backend, owner: string): Outcome {
    Outcome(b.(refresh := R.SetOwner(b.refresh, owner), ids := map[], completions := []), [WITHDRAWN])
  }

  datatype NameReply = Owner(name: string) | NoOwner | OtherError

  function NameAnswered(b: Backend, generation: nat, reply: NameReply): Outcome {
    var b' := b.(nameCalls := b.nameCalls - multiset{generation});
    if !b.refresh.started || generation != b.refresh.generation then Outcome(b', [])
    else
      match reply
      case Owner(name) => SetOwner(b', name)
      case NoOwner => SetOwner(b', b.service)
      case OtherError => Outcome(b', [WITHDRAWN])
  }

  function OwnerChanged(b: Backend, owner: string): Outcome {
    if b.refresh.started then SetOwner(b, owner) else Outcome(b, [])
  }

  function Stop(b: Backend): Outcome {
    if !b.refresh.started then Outcome(b, [])
    else Outcome(b.(refresh := R.Stop(b.refresh), ids := map[], completions := []), [WITHDRAWN])
  }

  function Changed(b: Backend): Backend {
    b.(refresh := R.Changed(b.refresh))
  }

  function KeysAt(path: string, interfaces: set<Interface>): set<Key> {
    set i | i in interfaces :: Key(path, i)
  }

  lemma KeysAtOneMore(path: string, interfaces: set<Interface>, i: Interface)
    ensures KeysAt(path, interfaces + {i}) == KeysAt(path, interfaces) + {Key(path, i)}
  {
  }

  function Removed(b: Backend, path: string, interfaces: set<Interface>): Backend {
    Changed(b.(ids := b.ids - KeysAt(path, interfaces)))
  }

  /** A successful mount of a volume that is gone is reported as a failure. */
  function Checked(result: Result, ids: map<Key, Id>): Result {
    if result.operation.Mount? && result.targetId !in ids.Values
    then result.(errorName := StorageError("Disappeared"), mountPath := "")
    else result
  }

  function Delivered(completions: seq<Completion>, ids: map<Key, Id>): (r: seq<Signal>)
    ensures |r| == |completions|
    ensures forall i :: 0 <= i < |r| ==> r[i] == OperationFinished(Checked(completions[i].result, ids))
  {
    seq(|completions|, i requires 0 <= i < |completions| => OperationFinished(Checked(completions[i].result, ids)))
  }

  ghost function Published(ids: map<Key, Id>, objects: seq<Object>): (r: Signal)
    ensures r.SnapshotChanged? && r.available
  {
    SnapshotChanged(DrivesOf(ids, objects), BackingChain.PropagatedOf(VolumesOf(ids, objects, objects)), true)
  }

  /** The GetManagedObjects call sent at moment t is answered; None stands for an error reply. */
  ghost function Answered(b: Backend, t: nat, reply: Option<seq<Object>>, uuids: map<Key, Id>): Outcome
    requires t in b.refresh.calls
    requires reply.Some? ==> uuids.Keys == Live(reply.value) - b.ids.Keys
  {
    var b' := b.(refresh := R.Answer(b.refresh, t, reply.Some?));
    match R.VerdictOn(b.refresh, t, reply.Some?)
    case Dropped => Outcome(b', [])
    case Superseded => Outcome(b', [])
    case Failed => Outcome(b'.(ids := map[], completions := []), [WITHDRAWN])
    case Published =>
      var ids := IdsAfter(b.ids, Live(reply.value), uuids);
      Outcome(b'.(ids := ids, completions := [], drawn := b.drawn + uuids.Items),
              [Published(ids, reply.value)] + Delivered(b.completions, ids))
  }

  function InterfaceFor(operation: Operation): Interface {
    if operation.Removal() then DriveInterface else BlockInterface
  }

  predicate Targets(ids: map<Key, Id>, operation: Operation, targetId: Id) {
    exists k :: k in ids && ids[k] == targetId && k.interface == InterfaceFor(operation)
  }

  /** The object interface that has the target's ID. */
  ghost function TargetOf(ids: map<Key, Id>, operation: Operation, targetId: Id): (k: Key)
    requires Targets(ids, operation, targetId)
    ensures k in ids && ids[k] == targetId && k.interface == InterfaceFor(operation)
  {
    var k :| k in ids && ids[k] == targetId && k.interface == InterfaceFor(operation);
    k
  }

  ghost function Execute(b: Backend, stepId: Id, operation: Operation, targetId: Id): Backend {
    var result := Result(stepId, targetId, operation, "", "");
    if !Targets(b.ids, operation, targetId) || b.refresh.owner == "" then
      b.(immediate := b.immediate + multiset{result.(errorName := StorageError("Disappeared"))})
    else
      b.(operations := b.operations[b.refresh.clock := 
          OperationCall(b.refresh.generation, TargetOf(b.ids, operation, targetId).path, result)],
         refresh := R.Tick(b.refresh))
  }

  datatype OperationReply = Failure(errorName: string) | Success(path: string)

  function ResultOf(result: Result, reply: OperationReply): Result {
    match reply
    case Failure(errorName) => result.(errorName := errorName)
    case Success(path) => if result.operation.Mount? then result.(mountPath := path) else result
  }

  /** The operation call sent at moment t is answered. */
  function OperationAnswered(b: Backend, t: nat, reply: OperationReply): Backend
    requires t in b.operations
  {
    var call := b.operations[t];
    var b' := b.(operations := b.operations - {t});
    if call.generation != b.refresh.generation then b'
    else
      var result := Checked(ResultOf(call.result, reply), b.ids);
      Changed(b'.(completions := b.completions + [Completion(result, b.refresh.clock)]))
  }

  /** A queued failure leaves the event loop. */
  function Expire(b: Backend, result: Result): Outcome {
    if result in b.immediate then Outcome(b.(immediate := b.immediate - multiset{result}), [OperationFinished(result)])
    else Outcome(b, [])
  }
}
