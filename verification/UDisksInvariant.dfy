/** What every UDisks2Backend step keeps, and what its snapshots and results promise. */
module UDisksInvariant {
  import opened Prelude
  import opened LifetimeIds
  import opened StorageTypes
  import opened UDisksSpec
  import BackingChain
  import R = RefreshProtocol

  /** The result is about an object interface that once had this ID. */
  ghost predicate KnownTarget(drawn: set<(Key, Id)>, result: Result) {
    exists k :: (k, result.targetId) in drawn && k.interface == InterfaceFor(result.operation)
  }

  /** The table only holds drawn IDs, of Drive and Block interfaces. */
  ghost predicate IdsSound(ids: map<Key, Id>, drawn: set<(Key, Id)>) {
    Sound(ids, drawn) && forall k :: k in ids ==> !k.interface.OtherInterface?
  }

  /** The call went to the object interface that the target's ID was made for. */
  ghost predicate Addressed(drawn: set<(Key, Id)>, call: OperationCall) {
    (Key(call.path, InterfaceFor(call.result.operation)), call.result.targetId) in drawn
  }

  ghost predicate CallsSound(b: Backend) {
    && (forall t :: t in b.operations ==> t < b.refresh.clock && b.operations[t].generation <= b.refresh.generation
                                          && KnownTarget(b.drawn, b.operations[t].result) && Addressed(b.drawn, b.operations[t]))
    && (forall c :: c in b.completions ==> c.arrivedAt <= b.refresh.disturbedAt && KnownTarget(b.drawn, c.result))
    && (b.completions != [] ==> b.refresh.refreshing)
    && (forall t :: t in b.operations && b.operations[t].generation == b.refresh.generation ==> b.refresh.owner != "")
    && (forall g :: g in b.nameCalls ==> g <= b.refresh.generation)
  }

  ghost predicate Invariant(b: Backend) {
    R.Invariant(b.refresh) && IdsSound(b.ids, b.drawn) && CallsSound(b)
  }

  // ---------------------------------------------------------------- each transition keeps it

  lemma InitialHolds(service: string)
    ensures Invariant(Initial(service))
  {
  }

  lemma StartKeeps(b: Backend)
    requires Invariant(b)
    ensures Invariant(Start(b))
  {
    R.StepKeeps(b.refresh, R.Starts);
  }

  lemma SetOwnerKeeps(b: Backend, owner: string)
    requires Invariant(b) && b.refresh.started
    ensures Invariant(SetOwner(b, owner).state)
  {
    R.SetOwnerKeeps(b.refresh, owner);
  }

  lemma NameAnsweredKeeps(b: Backend, generation: nat, reply: NameReply)
    requires Invariant(b)
    ensures Invariant(NameAnswered(b, generation, reply).state)
  {
    var b' := b.(nameCalls := b.nameCalls - multiset{generation});
    assert Invariant(b');
    if b.refresh.started {
      match reply
      case Owner(name) => SetOwnerKeeps(b', name);
      case NoOwner => SetOwnerKeeps(b', b.service);
      case OtherError =>
    }
  }

  lemma StopKeeps(b: Backend)
    requires Invariant(b)
    ensures Invariant(Stop(b).state)
  {
    R.StopKeeps(b.refresh);
  }

  lemma ChangedKeeps(b: Backend)
    requires R.Invariant(b.refresh) && IdsSound(b.ids, b.drawn)
    requires forall t :: t in b.operations ==> t < b.refresh.clock && b.operations[t].generation <= b.refresh.generation
                                               && KnownTarget(b.drawn, b.operations[t].result)
                                               && Addressed(b.drawn, b.operations[t])
    requires forall c :: c in b.completions ==> c.arrivedAt <= b.refresh.clock && KnownTarget(b.drawn, c.result)
    requires b.completions != [] ==> b.refresh.owner != ""
    requires forall t :: t in b.operations && b.operations[t].generation == b.refresh.generation ==> b.refresh.owner != ""
    requires forall g :: g in b.nameCalls ==> g <= b.refresh.generation
    ensures Invariant(Changed(b))
  {
    R.ChangedKeeps(b.refresh);
  }

  lemma ChangeKeeps(b: Backend)
    requires Invariant(b)
    ensures Invariant(Changed(b))
  {
    ChangedKeeps(b);
  }

  lemma RemovedKeeps(b: Backend, path: string, interfaces: set<Interface>)
    requires Invariant(b)
    ensures Invariant(Removed(b, path, interfaces))
  {
    ChangedKeeps(b.(ids := b.ids - KeysAt(path, interfaces)));
  }

  lemma PublishedIdsSound(b: Backend, live: set<Key>, uuids: map<Key, Id>)
    requires IdsSound(b.ids, b.drawn) && FreshFor(b.ids, b.drawn, live, uuids)
    requires forall k :: k in live ==> !k.interface.OtherInterface?
    ensures IdsSound(IdsAfter(b.ids, live, uuids), b.drawn + uuids.Items)
  {
    PublishingKeepsSound(b.ids, b.drawn, live, uuids);
  }

  lemma AnsweredKeeps(b: Backend, t: nat, reply: Option<seq<Object>>, uuids: map<Key, Id>)
    requires Invariant(b) && t in b.refresh.calls
    requires reply.Some? ==> FreshFor(b.ids, b.drawn, Live(reply.value), uuids)
    ensures Invariant(Answered(b, t, reply, uuids).state)
  {
    hide IdsSound;
    R.AnswerKeeps(b.refresh, t, reply.Some?);
    match R.VerdictOn(b.refresh, t, reply.Some?)
    case Dropped =>
    case Superseded =>
    case Failed => EmptyIdsSound(b.ids, b.drawn);
    case Published => PublishedIdsSound(b, Live(reply.value), uuids);
  }

  lemma EmptyIdsSound(ids: map<Key, Id>, drawn: set<(Key, Id)>)
    requires IdsSound(ids, drawn)
    ensures IdsSound(map[], drawn)
  {
  }

  lemma ExecuteKeeps(b: Backend, stepId: Id, operation: Operation, targetId: Id)
    requires Invariant(b)
    ensures Invariant(Execute(b, stepId, operation, targetId))
  {
    R.TickKeeps(b.refresh);
  }

  lemma OperationAnsweredKeeps(b: Backend, t: nat, reply: OperationReply)
    requires Invariant(b) && t in b.operations
    ensures Invariant(OperationAnswered(b, t, reply))
  {
    var call := b.operations[t];
    if call.generation == b.refresh.generation {
      var result := Checked(ResultOf(call.result, reply), b.ids);
      assert KnownTarget(b.drawn, call.result);
      ChangedKeeps(b.(operations := b.operations - {t},
                      completions := b.completions + [Completion(result, b.refresh.clock)]));
    }
  }

  // ---------------------------------------------------------------- lifetime IDs

  ghost predicate LiveId(b: Backend, id: Id) {
    Alive(b.ids, id)
  }

  /** IDs are never given to a second interface, and one that has left the table never comes back. */
  ghost predicate LifetimesRespected(b: Backend, b': Backend) {
    Respected(b.ids, b.drawn, b'.ids, b'.drawn)
  }

  lemma AnsweredRespectsLifetimes(b: Backend, t: nat, reply: Option<seq<Object>>, uuids: map<Key, Id>)
    requires IdsSound(b.ids, b.drawn) && t in b.refresh.calls
    requires reply.Some? ==> FreshFor(b.ids, b.drawn, Live(reply.value), uuids)
    ensures LifetimesRespected(b, Answered(b, t, reply, uuids).state)
  {
    var b' := Answered(b, t, reply, uuids).state;
    if R.VerdictOn(b.refresh, t, reply.Some?).Published? {
      PublishingRespects(b.ids, b.drawn, Live(reply.value), uuids);
    } else {
      FewerRespect(b.ids, b.drawn, b'.ids);
    }
  }

  /** A published table names exactly the snapshot's Drive and Block interfaces, under drawn IDs and old ones where there are. */
  ghost predicate TableOf(ids: map<Key, Id>, live: set<Key>, ids': map<Key, Id>, drawn': set<(Key, Id)>) {
    && ids'.Keys == live
    && (forall k :: k in ids' ==> (k, ids'[k]) in drawn')
    && (forall k :: k in ids' && k in ids ==> ids'[k] == ids[k])
  }

  lemma PublishedTableIsTheSnapshot(b: Backend, t: nat, objects: seq<Object>, uuids: map<Key, Id>)
    requires IdsSound(b.ids, b.drawn) && t in b.refresh.calls && FreshFor(b.ids, b.drawn, Live(objects), uuids)
    requires R.VerdictOn(b.refresh, t, true).Published?
    ensures var b' := Answered(b, t, Some(objects), uuids).state;
            TableOf(b.ids, Live(objects), b'.ids, b'.drawn)
  {
    hide Live, Published;
  }

  lemma {:induction false} BlocksKeepPathsDistinct(part: seq<Object>)
    requires DistinctPaths(part)
    ensures DistinctPaths(Blocks(part))
  {
    if part != [] {
      var init, last := part[..|part| - 1], part[|part| - 1];
      BlocksKeepPathsDistinct(init);
      var before := Blocks(init);
      forall i | 0 <= i < |before| ensures before[i].path != last.path {
        assert before[i] in init;
      }
    }
  }

  lemma DecodedIdsUnique(ids: map<Key, Id>, objects: seq<Object>)
    requires DistinctPaths(objects) && Live(objects) <= ids.Keys
    requires forall k, k' :: k in ids && k' in ids && ids[k] == ids[k'] ==> k == k'
    ensures BackingChain.UniqueIds(VolumesOf(ids, objects, objects))
  {
    hide LoopTable;
    BlocksKeepPathsDistinct(objects);
    var blocks := Blocks(objects);
    forall i | 0 <= i < |blocks| ensures Key(blocks[i].path, BlockInterface) in ids {
      assert blocks[i] in objects && Key(blocks[i].path, BlockInterface) in KeysOf(blocks[i]);
    }
  }

  lemma TableDecodesUniquely(ids: map<Key, Id>, drawn: set<(Key, Id)>, objects: seq<Object>)
    requires IdsSound(ids, drawn) && DistinctPaths(objects) && Live(objects) <= ids.Keys
    ensures BackingChain.UniqueIds(VolumesOf(ids, objects, objects))
  {
    forall k, k' | k in ids && k' in ids && ids[k] == ids[k'] ensures k == k' {
      assert (k, ids[k]) in drawn && (k', ids[k']) in drawn;
    }
    DecodedIdsUnique(ids, objects);
  }

  /** The published volumes are the decoded ones with drive and loop inherited; their IDs are unique and live. */
  lemma PublishedVolumes(b: Backend, t: nat, objects: seq<Object>, uuids: map<Key, Id>)
    requires IdsSound(b.ids, b.drawn) && t in b.refresh.calls
    requires DistinctPaths(objects) && FreshFor(b.ids, b.drawn, Live(objects), uuids)
    requires R.VerdictOn(b.refresh, t, true).Published?
    ensures var m := Answered(b, t, Some(objects), uuids);
            var volumes := m.signals[0].volumes;
            && BackingChain.UniqueIds(volumes)
            && BackingChain.Propagated(VolumesOf(m.state.ids, objects, objects), volumes)
  {
    hide BackingChain.PropagatedOf, BackingChain.NearestDrive, BackingChain.LoopOnChain, VolumesOf;
    var m := Answered(b, t, Some(objects), uuids);
    PublishedIdsSound(b, Live(objects), uuids);
    DecodedIdsUnique(m.state.ids, objects);
  }

  /** Every block object of the snapshot appears among the published volumes under its table ID. */
  lemma BlockIsPublished(ids: map<Key, Id>, objects: seq<Object>, o: Object)
    requires o in objects && o.block.Some?
    ensures exists v :: v in Published(ids, objects).volumes && v.id == Lookup(ids, Key(o.path, BlockInterface))
  {
    hide BackingChain.PropagatedOf, BackingChain.NearestDrive, BackingChain.LoopOnChain, LoopTable;
    var decoded := VolumesOf(ids, objects, objects);
    var volumes := Published(ids, objects).volumes;
    assert BackingChain.Propagated(decoded, volumes);
    var i :| 0 <= i < |Blocks(objects)| && Blocks(objects)[i] == o;
    assert volumes[i].id == decoded[i].id;
    assert volumes[i] in volumes;
  }

  // ---------------------------------------------------------------- results come after fresh topology

  /**
   Every result handed over comes right behind an available snapshot that was asked for after the result's reply had
   arrived, and a mount reported as successful targets a volume of that very snapshot.
   */
  lemma ResultsFollowFreshTopology(b: Backend, t: nat, reply: Option<seq<Object>>, uuids: map<Key, Id>, i: nat)
    requires Invariant(b) && t in b.refresh.calls
    requires reply.Some? ==> DistinctPaths(reply.value) && FreshFor(b.ids, b.drawn, Live(reply.value), uuids)
    requires i < |Answered(b, t, reply, uuids).signals|
    requires Answered(b, t, reply, uuids).signals[i].OperationFinished?
    ensures var signals := Answered(b, t, reply, uuids).signals;
            var result := signals[i].result;
            && signals[0].SnapshotChanged? && signals[0].available
            && (exists c :: c in b.completions && result.requestId == c.result.requestId && c.arrivedAt < t)
            && (result.operation.Mount? && result.Succeeded() ==>
                  exists v :: v in signals[0].volumes && v.id == result.targetId)
  {
    hide R.Invariant, BackingChain.PropagatedOf;
    var m := Answered(b, t, reply, uuids);
    assert R.VerdictOn(b.refresh, t, reply.Some?).Published?;
    var ids := m.state.ids;
    var c := b.completions[i - 1];
    assert m.signals[i] == Delivered(b.completions, ids)[i - 1];
    var result := m.signals[i].result;
    assert c.arrivedAt < t by {
      assert c in b.completions;
      CurrentCallIsNewer(b.refresh, t);
    }
    if result.operation.Mount? && result.Succeeded() {
      MountedVolumeIsPublished(b, t, reply.value, uuids, c.result);
    }
  }

  lemma CurrentCallIsNewer(r: R.Refresh, t: nat)
    requires R.Invariant(r) && t in r.calls && R.VerdictOn(r, t, true).Published?
    ensures r.disturbedAt < t
  {
    assert R.Current(r, t);
  }

  /** An ID once drawn for a block interface is, if still in the table, the ID of a block object of the snapshot. */
  lemma LiveTargetIsABlock(ids: map<Key, Id>, drawn: set<(Key, Id)>, objects: seq<Object>, result: Result)
    returns (o: Object)
    requires IdsSound(ids, drawn) && ids.Keys == Live(objects)
    requires KnownTarget(drawn, result) && result.operation.Mount? && result.targetId in ids.Values
    ensures o in objects && o.block.Some? && Lookup(ids, Key(o.path, BlockInterface)) == result.targetId
  {
    hide Sound;
    var k :| (k, result.targetId) in drawn && k.interface == BlockInterface;
    DrawnOnce(ids, drawn, k, result.targetId);
    o :| o in objects && k in KeysOf(o);
  }

  lemma MountedVolumeIsPublished(b: Backend, t: nat, objects: seq<Object>, uuids: map<Key, Id>, result: Result)
    requires IdsSound(b.ids, b.drawn) && t in b.refresh.calls && R.VerdictOn(b.refresh, t, true).Published?
    requires FreshFor(b.ids, b.drawn, Live(objects), uuids)
    requires KnownTarget(b.drawn, result) && result.operation.Mount?
    requires result.targetId in Answered(b, t, Some(objects), uuids).state.ids.Values
    ensures exists v :: v in Answered(b, t, Some(objects), uuids).signals[0].volumes && v.id == result.targetId
  {
    hide IdsSound, Published;
    var ids := IdsAfter(b.ids, Live(objects), uuids);
    var drawn := b.drawn + uuids.Items;
    PublishedIdsSound(b, Live(objects), uuids);
    assert KnownTarget(drawn, result) by {
      var k :| (k, result.targetId) in b.drawn && k.interface == BlockInterface;
      assert (k, result.targetId) in drawn;
    }
    hide KnownTarget;
    var o := LiveTargetIsABlock(ids, drawn, objects, result);
    BlockIsPublished(ids, objects, o);
  }
}
