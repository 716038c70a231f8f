/**
 What UDisks2Backend does, in terms of object paths, owners, replies and error names: what a snapshot shows of each
 object, whose the service is, which interfaces have an ID, where a call goes, and what a result says.
 */
module UDisksEffects {
  import opened LifetimeIds
  import opened Prelude
  import opened StorageTypes
  import opened UDisksInvariant
  import opened UDisksSpec
  import BackingChain
  import R = RefreshProtocol

  // ---------------------------------------------------------------- what a snapshot shows

  /** The ID of the interface at the path, or none when the table has none. */
  predicate IsIdOf(id: Id, ids: map<Key, Id>, path: string, interface: Interface) {
    if Key(path, interface) in ids then id == ids[Key(path, interface)] else id == ""
  }

  predicate ShowsDrive(d: Drive, o: Object, ids: map<Key, Id>) {
    && o.drive.Some? && IsIdOf(d.id, ids, o.path, DriveInterface)
    && d.siblingId == o.drive.value.siblingId
    && d.canEject == o.drive.value.canEject && d.canPowerOff == o.drive.value.canPowerOff
  }

  /**
   The volume before anything is inherited: its own drive and backing device, its mount points, mountable exactly with a
   filesystem mounted nowhere, unmountable exactly with one mounted somewhere; a loop device or a partition of one.
   */
  ghost predicate ShowsBlock(v: Volume, o: Object, objects: seq<Object>, ids: map<Key, Id>) {
    && o.block.Some? && IsIdOf(v.id, ids, o.path, BlockInterface)
    && IsIdOf(v.driveId, ids, o.block.value.drivePath, DriveInterface)
    && IsIdOf(v.cryptoBackingId, ids, o.block.value.backingPath, BlockInterface)
    && v.mountPoints == (if o.block.value.filesystem.Some? then o.block.value.filesystem.value else [])
    && (v.canMount <==> o.block.value.filesystem.Some? && o.block.value.filesystem.value == [])
    && (v.canUnmount <==> o.block.value.filesystem.Some? && o.block.value.filesystem.value != [])
    && (v.loop <==> o.loop || (o.block.value.tablePath != "" && exists t :: t in objects && t.path == o.block.value.tablePath && t.loop))
  }

  /** Exactly the drives and block devices of the reply, drive and loop then inherited along backing devices. */
  ghost predicate ShowsReply(drives: seq<Drive>, volumes: seq<Volume>, objects: seq<Object>, ids: map<Key, Id>) {
    && (forall d :: d in drives <==> exists o :: o in objects && ShowsDrive(d, o, ids))
    && exists own: seq<Volume> ::
         && (forall v :: v in own <==> exists o :: o in objects && ShowsBlock(v, o, objects, ids))
         && BackingChain.Propagated(own, volumes)
  }

  lemma RecordShowsDrive(ids: map<Key, Id>, o: Object)
    ensures forall d :: ShowsDrive(d, o, ids) <==> o.drive.Some? && d == DriveRecord(ids, o)
  {}

  lemma {:induction false} DrivesShown(ids: map<Key, Id>, part: seq<Object>)
    ensures forall d :: d in DrivesOf(ids, part) <==> exists o :: o in part && ShowsDrive(d, o, ids)
  {
    hide ShowsDrive, DriveRecord;
    if part != [] {
      var n := |part| - 1;
      var before, drives := DrivesOf(ids, part[..n]), DrivesOf(ids, part);
      DrivesShown(ids, part[..n]);
      RecordShowsDrive(ids, part[n]);
      forall d | d in drives ensures exists o :: o in part && ShowsDrive(d, o, ids) {
        if d in before {
          var o :| o in part[..n] && ShowsDrive(d, o, ids);
          assert o in part;
        } else {
          assert part[n] in part && ShowsDrive(d, part[n], ids);
        }
      }
      forall d, o | o in part && ShowsDrive(d, o, ids) ensures d in drives {
        if o != part[n] {
          assert o in part[..n];
        }
      }
    }
  }

  lemma RecordShowsBlock(ids: map<Key, Id>, objects: seq<Object>, o: Object)
    requires o.block.Some?
    ensures forall v :: ShowsBlock(v, o, objects, ids) <==> v == VolumeRecord(ids, objects, o)
  {}

  lemma VolumesShown(ids: map<Key, Id>, objects: seq<Object>)
    ensures forall v :: v in VolumesOf(ids, objects, objects) <==> exists o :: o in objects && ShowsBlock(v, o, objects, ids)
  {
    hide VolumeRecord, ShowsBlock;
    var blocks, own := Blocks(objects), VolumesOf(ids, objects, objects);
    forall v | v in own ensures exists o :: o in objects && ShowsBlock(v, o, objects, ids) {
      var i :| 0 <= i < |own| && own[i] == v;
      assert blocks[i] in objects;
      RecordShowsBlock(ids, objects, blocks[i]);
    }
    forall v, o | o in objects && ShowsBlock(v, o, objects, ids) ensures v in own {
      BlocksOnly(v, o, objects, ids);
      RecordShowsBlock(ids, objects, o);
      var i :| 0 <= i < |blocks| && blocks[i] == o;
      assert own[i] == v;
    }
  }

  lemma BlocksOnly(v: Volume, o: Object, objects: seq<Object>, ids: map<Key, Id>)
    requires ShowsBlock(v, o, objects, ids)
    ensures o.block.Some?
  {}

  lemma PublishedShowsReply(ids: map<Key, Id>, objects: seq<Object>)
    ensures var s := Published(ids, objects); ShowsReply(s.drives, s.volumes, objects, ids)
  {
    hide ShowsBlock, ShowsDrive, BackingChain.PropagatedOf, BackingChain.Propagated, VolumesOf;
    DrivesShown(ids, objects);
    VolumesShown(ids, objects);
    assert BackingChain.Propagated(VolumesOf(ids, objects, objects), Published(ids, objects).volumes);
  }

  /** What a volume says of its object, whatever drive and loop it inherits. */
  predicate StandsFor(v: Volume, o: Object, ids: map<Key, Id>) {
    && o.block.Some? && IsIdOf(v.id, ids, o.path, BlockInterface)
    && IsIdOf(v.cryptoBackingId, ids, o.block.value.backingPath, BlockInterface)
    && match o.block.value.filesystem
       case None => v.mountPoints == [] && !v.canMount && !v.canUnmount
       case Some(mounts) => v.mountPoints == mounts && v.canMount == (mounts == []) && v.canUnmount == (mounts != [])
  }

  lemma ShownVolumesStandForObjects(drives: seq<Drive>, volumes: seq<Volume>, objects: seq<Object>, ids: map<Key, Id>)
    requires ShowsReply(drives, volumes, objects, ids)
    ensures forall v :: v in volumes ==> exists o :: o in objects && StandsFor(v, o, ids)
    ensures forall o :: o in objects && o.block.Some? ==> exists v :: v in volumes && StandsFor(v, o, ids)
  {
    hide BackingChain.NearestDrive, BackingChain.LoopOnChain;
    var own: seq<Volume> :| (forall v :: v in own <==> exists o :: o in objects && ShowsBlock(v, o, objects, ids))
                            && BackingChain.Propagated(own, volumes);
    forall v | v in volumes ensures exists o :: o in objects && StandsFor(v, o, ids) {
      var i :| 0 <= i < |volumes| && volumes[i] == v;
      assert own[i] in own;
      var o :| o in objects && ShowsBlock(own[i], o, objects, ids);
      assert StandsFor(v, o, ids);
    }
    forall o | o in objects && o.block.Some? ensures exists v :: v in volumes && StandsFor(v, o, ids) {
      RecordShowsBlock(ids, objects, o);
      var v := VolumeRecord(ids, objects, o);
      assert v in own;
      var i :| 0 <= i < |own| && own[i] == v;
      assert volumes[i] in volumes && StandsFor(volumes[i], o, ids);
    }
  }

  // ---------------------------------------------------------------- owners and interfaces

  /** Whatever was known is dropped and withdrawn, and the protocol has a new owner. */
  predicate Withdraws(b: Backend, owner: string, started: bool, m: Outcome) {
    && m.state == b.(refresh := R.SetOwner(b.refresh.(started := started), owner), ids := map[], completions := [])
    && m.state.refresh.owner == owner && m.state.refresh.started == started
    && m.state.refresh.generation == b.refresh.generation + 1 && m.state.refresh.revision == b.refresh.revision + 1
    && m.signals == [SnapshotChanged([], [], false)]
  }

  lemma OwnerWithdraws(b: Backend, owner: string)
    ensures Withdraws(b, owner, b.refresh.started, SetOwner(b, owner))
  {}

  /** Starting once asks for the owner in the present generation. */
  lemma StartDecides(b: Backend)
    ensures Start(b) == if b.refresh.started then b
                        else b.(refresh := b.refresh.(started := true), nameCalls := b.nameCalls + multiset{b.refresh.generation})
  {}

  /** The owner asked for: the one named, the service name itself when nobody owns it, or nobody after another error. */
  lemma NameAnswerDecides(b: Backend, generation: nat, reply: NameReply)
    ensures var m, b' := NameAnswered(b, generation, reply), b.(nameCalls := b.nameCalls - multiset{generation});
            if !b.refresh.started || generation != b.refresh.generation then m == Outcome(b', [])
            else if reply.OtherError? then m == Outcome(b', [SnapshotChanged([], [], false)])
            else Withdraws(b', if reply.Owner? then reply.name else b.service, true, m)
  {
    hide SetOwner;
    var b' := b.(nameCalls := b.nameCalls - multiset{generation});
    OwnerWithdraws(b', if reply.Owner? then reply.name else b.service);
  }

  /** The watcher counts only between start and stop; stopping leaves no owner. */
  lemma OwnerEventDecides(b: Backend, owner: string)
    ensures if b.refresh.started then Withdraws(b, owner, true, OwnerChanged(b, owner)) else OwnerChanged(b, owner) == Outcome(b, [])
    ensures if b.refresh.started then Withdraws(b, "", false, Stop(b)) else Stop(b) == Outcome(b, [])
  {
    hide SetOwner;
    OwnerWithdraws(b, owner);
  }

  /** Exactly the interfaces named at exactly this path lose their IDs, and data asked for earlier is stale. */
  lemma RemovalDecides(b: Backend, path: string, interfaces: set<Interface>)
    ensures var b' := Removed(b, path, interfaces);
            && (forall k :: k in b'.ids <==> k in b.ids && !(k.path == path && k.interface in interfaces))
            && (forall k :: k in b'.ids ==> b'.ids[k] == b.ids[k])
            && b' == b.(ids := b'.ids, refresh := R.Changed(b.refresh))
  {}

  // ---------------------------------------------------------------- snapshot replies

  /** The reply answers the call of the present generation and nothing has changed since that call. */
  predicate Usable(r: R.Refresh, t: nat) {
    t in r.calls && r.calls[t].generation == r.generation && r.calls[t].revision == r.revision
  }

  /** A mount whose volume has no ID any more counts as failed; any other result is as it was. */
  predicate Rechecked(r: Result, result: Result, ids: map<Key, Id>) {
    if result.operation == Mount && (forall k :: k in ids ==> ids[k] != result.targetId)
    then r == Result(result.requestId, result.targetId, Mount, "", "org.holonight.Storage." + "Disappeared")
    else r == result
  }

  lemma CheckedIsRechecked(result: Result, ids: map<Key, Id>)
    ensures Rechecked(Checked(result, ids), result, ids)
  {
    if result.targetId in ids.Values {
      var k :| k in ids && ids[k] == result.targetId;
    }
  }

  /** The table names the Drive and Block interfaces of the reply; IDs it had stay, the others are those drawn. */
  ghost predicate TableNames(ids: map<Key, Id>, objects: seq<Object>, before: map<Key, Id>, uuids: map<Key, Id>) {
    && (forall k :: k in ids <==> exists o :: o in objects && o.path == k.path
                                              && ((o.drive.Some? && k.interface == DriveInterface) || (o.block.Some? && k.interface == BlockInterface)))
    && (forall k :: k in ids ==> if k in before then ids[k] == before[k] else k in uuids && ids[k] == uuids[k])
  }

  lemma TableIsNamed(b: Backend, objects: seq<Object>, uuids: map<Key, Id>)
    requires uuids.Keys == Live(objects) - b.ids.Keys
    ensures TableNames(IdsAfter(b.ids, Live(objects), uuids), objects, b.ids, uuids)
  {
    forall k ensures k in Live(objects) <==> exists o :: o in objects && o.path == k.path
                                              && ((o.drive.Some? && k.interface == DriveInterface) || (o.block.Some? && k.interface == BlockInterface))
    {
      if k in Live(objects) {
        var o :| o in objects && k in KeysOf(o);
      }
      forall o | o in objects && o.path == k.path
                 && ((o.drive.Some? && k.interface == DriveInterface) || (o.block.Some? && k.interface == BlockInterface))
        ensures k in Live(objects)
      {
        assert k in KeysOf(o);
      }
    }
  }

  /** The published signals: the snapshot of the reply, and behind it every held result, checked once more. */
  ghost predicate Delivers(b: Backend, objects: seq<Object>, ids: map<Key, Id>, signals: seq<Signal>) {
    && |signals| == 1 + |b.completions|
    && signals[0].SnapshotChanged? && signals[0].available && ShowsReply(signals[0].drives, signals[0].volumes, objects, ids)
    && forall i :: 0 <= i < |b.completions| ==>
         signals[i + 1].OperationFinished? && Rechecked(signals[i + 1].result, b.completions[i].result, ids)
  }

  lemma DeliveriesFollow(b: Backend, objects: seq<Object>, ids: map<Key, Id>)
    ensures Delivers(b, objects, ids, [Published(ids, objects)] + Delivered(b.completions, ids))
  {
    hide ShowsReply, Checked, Rechecked;
    PublishedShowsReply(ids, objects);
    forall i | 0 <= i < |b.completions|
      ensures Rechecked(Delivered(b.completions, ids)[i].result, b.completions[i].result, ids)
    {
      CheckedIsRechecked(b.completions[i].result, ids);
    }
    hide Published;
  }

  /** A reply to the snapshot call: dropped or repeated unless it is usable, a withdrawal if it failed, else a publication. */
  lemma SnapshotReplyDecides(b: Backend, t: nat, reply: Option<seq<Object>>, uuids: map<Key, Id>)
    requires t in b.refresh.calls && (reply.Some? ==> uuids.Keys == Live(reply.value) - b.ids.Keys)
    ensures var m := Answered(b, t, reply, uuids);
            && m.state.refresh == R.Answer(b.refresh, t, reply.Some?)
            && if !Usable(b.refresh, t) then m == Outcome(b.(refresh := m.state.refresh), [])
            else if reply.None? then
              m == Outcome(b.(refresh := m.state.refresh, ids := map[], completions := []), [SnapshotChanged([], [], false)])
            else
              && TableNames(m.state.ids, reply.value, b.ids, uuids) && Delivers(b, reply.value, m.state.ids, m.signals)
              && m.state == b.(refresh := m.state.refresh, ids := m.state.ids, completions := [], drawn := b.drawn + uuids.Items)
  {
    hide Published, Live, IdsAfter, TableNames, Delivers, R.Answer;
    if reply.Some? {
      TableIsNamed(b, reply.value, uuids);
      DeliveriesFollow(b, reply.value, IdsAfter(b.ids, Live(reply.value), uuids));
    }
  }

  // ---------------------------------------------------------------- operation calls

  /** A failure queued in the event loop is reported once, as it was queued. */
  lemma ExpiryDecides(b: Backend, result: Result)
    requires result in b.immediate
    ensures Expire(b, result) == Outcome(b.(immediate := b.immediate - multiset{result}), [OperationFinished(result)])
  {}

  /** The ID of the target belongs to this interface, which is the one the operation is a method of. */
  predicate IsTarget(ids: map<Key, Id>, k: Key, operation: Operation, targetId: Id) {
    k in ids && ids[k] == targetId && k.interface == if operation in {Eject, PowerOff} then DriveInterface else BlockInterface
  }

  /** A call goes to the path of the target, in the present generation; without owner or target a failure is queued. */
  lemma ExecuteDecides(b: Backend, stepId: Id, operation: Operation, targetId: Id)
    ensures var b' := Execute(b, stepId, operation, targetId);
            if b.refresh.owner != "" && exists k :: IsTarget(b.ids, k, operation, targetId) then
              && b.refresh.clock in b'.operations
              && b' == b.(operations := b.operations[b.refresh.clock := b'.operations[b.refresh.clock]], refresh := R.Tick(b.refresh))
              && var call := b'.operations[b.refresh.clock];
                 && call.generation == b.refresh.generation && call.result == Result(stepId, targetId, operation, "", "")
                 && exists k :: IsTarget(b.ids, k, operation, targetId) && call.path == k.path
            else
              b' == b.(immediate := b.immediate + multiset{Result(stepId, targetId, operation, "", "org.holonight.Storage." + "Disappeared")})
  {
    forall k ensures IsTarget(b.ids, k, operation, targetId) <==>
                       k in b.ids && b.ids[k] == targetId && k.interface == InterfaceFor(operation) {}
    if Targets(b.ids, operation, targetId) {
      assert IsTarget(b.ids, TargetOf(b.ids, operation, targetId), operation, targetId);
    }
  }

  /** What a reply says: its own error name, or success and for a mount the path. */
  predicate Says(result: Result, call: OperationCall, reply: OperationReply) {
    result == Result(call.result.requestId, call.result.targetId, call.result.operation,
                     if reply.Success? && call.result.operation == Mount then reply.path else call.result.mountPath,
                     if reply.Failure? then reply.errorName else call.result.errorName)
  }

  /** The reply to a call of the present generation is held back as what it says, checked; data asked for earlier is stale. */
  lemma OperationReplyDecides(b: Backend, t: nat, reply: OperationReply)
    requires t in b.operations
    ensures var b', call := OperationAnswered(b, t, reply), b.operations[t];
            if call.generation != b.refresh.generation then b' == b.(operations := b.operations - {t})
            else exists said, held ::
                   && Says(said, call, reply) && Rechecked(held, said, b.ids)
                   && b' == b.(operations := b.operations - {t}, refresh := R.Changed(b.refresh),
                               completions := b.completions + [Completion(held, b.refresh.clock)])
  {
    var said := ResultOf(b.operations[t].result, reply);
    assert Says(said, b.operations[t], reply);
    CheckedIsRechecked(said, b.ids);
    hide Rechecked, Checked;
  }

  /** At first the backend is not started, has no owner and knows nothing; nothing is in flight or held back. */
  lemma AtFirst(service: string)
    ensures var b := Initial(service);
            && b.service == service && !b.refresh.started && b.refresh.owner == "" && !b.refresh.refreshing && b.refresh.calls == map[]
            && b.ids == map[] && b.completions == [] && b.operations == map[] && b.immediate == multiset{} && b.nameCalls == multiset{}
  {}
}
