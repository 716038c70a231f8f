/** UDisks2Backend itself: each method is proved against its function in UDisksSpec. */
module UDisks2Backend {
  import opened Prelude
  import opened LifetimeIds
  import opened StorageTypes
  import opened UDisksSpec
  import UI = UDisksInvariant
  import BackingChain
  import R = RefreshProtocol

  /** The held-back results with the moments their replies arrived. */
  ghost function Stamped(results: seq<Result>, arrivals: seq<nat>): (r: seq<Completion>)
    ensures |results| == |arrivals| ==> |r| == |results| && forall i :: 0 <= i < |r| ==> r[i].result == results[i]
  {
    if results == [] || arrivals == [] then []
    else
      Stamped(results[..|results| - 1], arrivals[..|arrivals| - 1])
      + [Completion(results[|results| - 1], arrivals[|arrivals| - 1])]
  }

  lemma StampedOneMore(results: seq<Result>, arrivals: seq<nat>, result: Result, now: nat)
    ensures Stamped(results + [result], arrivals + [now]) == Stamped(results, arrivals) + [Completion(result, now)]
  {
    assert (results + [result])[..|results|] == results && (arrivals + [now])[..|arrivals|] == arrivals;
  }

  /** The bags of calls in flight, the moments, and everything ever drawn; see UDisksSpec. */
  datatype History = History(calls: map<nat, R.SnapshotCall>, clock: nat, disturbedAt: nat, shown: R.Shown,
                             arrivals: seq<nat>, operations: map<nat, OperationCall>, immediate: multiset<Result>,
                             nameCalls: multiset<nat>, drawn: set<(Key, Id)>)

  /** The part of the drawn identifiers that goes to `keys`. */
  ghost function Drawn(uuids: map<Key, Id>, keys: set<Key>): map<Key, Id> {
    map k | k in uuids && k in keys :: uuids[k]
  }

  lemma NoKeysAt(ids: map<Key, Id>, path: string)
    ensures ids - KeysAt(path, {}) == ids
  {
  }

  lemma NothingDrawn(ids: map<Key, Id>, uuids: map<Key, Id>)
    ensures ids + Drawn(uuids, {}) == ids
  {
  }

  lemma EverythingDrawn(uuids: map<Key, Id>, keys: set<Key>)
    requires uuids.Keys <= keys
    ensures Drawn(uuids, keys) == uuids
  {
  }

  lemma DrawnMore(ids: map<Key, Id>, uuids: map<Key, Id>, keys: set<Key>, more: set<Key>)
    ensures ids + Drawn(uuids, keys) + Drawn(uuids, more) == ids + Drawn(uuids, keys + more)
    ensures ids.Keys !! uuids.Keys ==>
              forall k :: k in ids + Drawn(uuids, keys) && k in uuids ==> (ids + Drawn(uuids, keys))[k] == uuids[k]
    ensures ids.Keys <= (ids + Drawn(uuids, keys)).Keys
  {
  }

  class Backend {
    const service: string
    var owner: string
    var started: bool
    var refreshing: bool
    var generation: nat
    var revision: nat
    var ids: map<Key, Id>
    var completions: seq<Result>
    /** snapshotChanged and operationFinished signals, in the order emitted. */
    var emitted: seq<Signal>

    ghost var history: History

    ghost function Protocol(): R.Refresh
      reads this
    {
      R.Refresh(started, owner, generation, revision, refreshing, history.calls, history.clock, history.disturbedAt,
                history.shown)
    }

    ghost function View(): UDisksSpec.Backend
      reads this
    {
      UDisksSpec.Backend(service, Protocol(), ids, Stamped(completions, history.arrivals), history.operations,
                         history.immediate, history.nameCalls, history.drawn)
    }

    ghost predicate Paired()
      reads this
    {
      |history.arrivals| == |completions|
    }

    ghost predicate Valid()
      reads this
    {
      Paired() && UI.Invariant(View())
    }

    constructor (service: string)
      ensures Valid() && View() == Initial(service) && emitted == []
    {
      this.service := service;
      owner, started, refreshing, generation, revision := "", false, false, 0, 0;
      ids, completions, emitted := map[], [], [];
      history := History(map[], 1, 0, R.Shown(false, 0), [], map[], multiset{}, multiset{}, {});
    }

    // -------------------------------------------------------------- the refresh protocol

    method Refresh()
      requires Paired()
      modifies this
      ensures Paired() && View() == old(View()).(refresh := R.Ask(old(Protocol()))) && emitted == old(emitted)
    {
      if refreshing || owner == "" {
        return;
      }
      refreshing := true;
      history := history.(calls := history.calls[history.clock := R.SnapshotCall(generation, revision)],
                          clock := history.clock + 1);
    }

    method Changed()
      requires Paired()
      modifies this
      ensures Paired() && View() == UDisksSpec.Changed(old(View())) && emitted == old(emitted)
    {
      history := history.(disturbedAt := history.clock, clock := history.clock + 1);
      revision := revision + 1;
      if started && owner != "" {
        Refresh();
      }
    }

    method SetOwner(newOwner: string)
      requires Paired()
      modifies this
      ensures Paired() && View() == UDisksSpec.SetOwner(old(View()), newOwner).state
      ensures emitted == old(emitted) + [WITHDRAWN]
    {
      hide R.Ask, R.Disown, Stamped;
      Disown(newOwner);
      R.NobodyToAsk(Protocol());
      if owner != "" {
        Refresh();
      }
    }

    /** Everything setOwner does before it asks for a snapshot. */
    method Disown(newOwner: string)
      modifies this
      ensures View() == old(View()).(refresh := R.Disown(old(Protocol()), newOwner), ids := map[], completions := [])
      ensures Paired() && emitted == old(emitted) + [WITHDRAWN] && owner == newOwner
    {
      history := history.(disturbedAt := history.clock, shown := R.Shown(false, history.clock),
                          clock := history.clock + 1, arrivals := []);
      generation := generation + 1;
      revision := revision + 1;
      refreshing := false;
      owner := newOwner;
      ids := map[];
      completions := [];
      emitted := emitted + [WITHDRAWN];
    }

    method Start()
      requires Valid()
      modifies this
      ensures Valid() && View() == UDisksSpec.Start(old(View())) && emitted == old(emitted)
    {
      UI.StartKeeps(View());
      if started {
        return;
      }
      started := true;
      history := history.(nameCalls := history.nameCalls + multiset{generation});
    }

    /** GetNameOwner finished; `captured` is the generation its callback remembered. */
    method OnNameOwner(captured: nat, reply: NameReply)
      requires Valid() && captured in history.nameCalls
      modifies this
      ensures Valid() && View() == NameAnswered(old(View()), captured, reply).state
      ensures emitted == old(emitted) + NameAnswered(old(View()), captured, reply).signals
    {
      hide UI.Invariant;
      UI.NameAnsweredKeeps(View(), captured, reply);
      history := history.(nameCalls := history.nameCalls - multiset{captured});
      if !started || captured != generation {
        return;
      }
      match reply {
        case Owner(name) => SetOwner(name);
        case NoOwner => SetOwner(service);
        case OtherError => emitted := emitted + [WITHDRAWN];
      }
    }

    method OnOwnerChanged(newOwner: string)
      requires Valid()
      modifies this
      ensures Valid() && View() == OwnerChanged(old(View()), newOwner).state
      ensures emitted == old(emitted) + OwnerChanged(old(View()), newOwner).signals
    {
      hide UI.Invariant;
      if started {
        UI.SetOwnerKeeps(View(), newOwner);
        SetOwner(newOwner);
      }
    }

    method Stop()
      requires Valid()
      modifies this
      ensures Valid() && View() == UDisksSpec.Stop(old(View())).state
      ensures emitted == old(emitted) + UDisksSpec.Stop(old(View())).signals
    {
      hide UI.Invariant;
      UI.StopKeeps(View());
      if !started {
        return;
      }
      started := false;
      SetOwner("");
    }

    method OnInterfacesRemoved(path: string, interfaces: seq<Interface>)
      requires Valid()
      modifies this
      ensures Valid() && View() == Removed(old(View()), path, set i | i in interfaces) && emitted == old(emitted)
    {
      hide UI.Invariant;
      UI.RemovedKeeps(View(), path, set i | i in interfaces);
      hide KeysAt;
      ghost var before := ids;
      ghost var gone: set<Interface> := {};
      NoKeysAt(ids, path);
      var n := 0;
      while n < |interfaces|
        invariant 0 <= n <= |interfaces|
        invariant gone == set i | i in interfaces[..n]
        invariant ids == before - KeysAt(path, gone)
        modifies this`ids
      {
        KeysAtOneMore(path, gone, interfaces[n]);
        ids := ids - {Key(path, interfaces[n])};
        assert interfaces[..n + 1] == interfaces[..n] + [interfaces[n]];
        gone := gone + {interfaces[n]};
        n := n + 1;
      }
      assert interfaces[..n] == interfaces;
      Changed();
    }

    /** The GetManagedObjects call sent at moment t finished; its callback remembered generation and revision. */
    method OnSnapshotReply(ghost t: nat, atGeneration: nat, atRevision: nat, reply: Option<seq<Object>>,
                           uuids: map<Key, Id>)
      requires Valid() && t in history.calls && history.calls[t] == R.SnapshotCall(atGeneration, atRevision)
      requires reply.Some? ==> DistinctPaths(reply.value) && FreshFor(ids, history.drawn, Live(reply.value), uuids)
      modifies this
      ensures Valid() && View() == Answered(old(View()), t, reply, uuids).state
      ensures emitted == old(emitted) + Answered(old(View()), t, reply, uuids).signals
    {
      hide UI.IdsSound, UI.CallsSound, R.Invariant, Published, Delivered, Stamped, FreshFor, IdsAfter;
      UI.AnsweredKeeps(View(), t, reply, uuids);
      history := history.(calls := history.calls - {t});
      if atGeneration != generation {
        return;
      }
      refreshing := false;
      if atRevision != revision {
        Refresh();
        return;
      }
      history := history.(shown := R.Shown(reply.Some?, t));
      if reply.None? {
        Withdraw();
      } else {
        PublishAndDeliver(reply.value, uuids);
      }
    }

    method Withdraw()
      modifies this`ids, this`completions, this`history, this`emitted
      ensures ids == map[] && completions == [] && history == old(history).(arrivals := [])
      ensures emitted == old(emitted) + [WITHDRAWN]
    {
      ids := map[];
      completions, history := [], history.(arrivals := []);
      emitted := emitted + [WITHDRAWN];
    }

    /** Publish the snapshot first, then hand over the results that waited for it. */
    method PublishAndDeliver(objects: seq<Object>, uuids: map<Key, Id>)
      requires DistinctPaths(objects) && FreshFor(ids, history.drawn, Live(objects), uuids) && UI.IdsSound(ids, history.drawn) && Paired()
      modifies this`ids, this`history, this`completions, this`emitted
      ensures ids == IdsAfter(old(ids), Live(objects), uuids) && completions == []
      ensures history == old(history).(drawn := old(history).drawn + uuids.Items, arrivals := [])
      ensures emitted == old(emitted) + ([Published(ids, objects)] + Delivered(old(Stamped(completions, history.arrivals)), ids))
    {
      hide Published, IdsAfter, FreshFor;
      Publish(objects, uuids);
      var held := completions;
      ghost var stamped := Stamped(completions, history.arrivals);
      completions, history := [], history.(arrivals := []);
      DeliverAll(held, stamped);
    }

    /** Hand over the held-back results, failing mounts whose volume is gone. */
    method DeliverAll(held: seq<Result>, ghost stamped: seq<Completion>)
      requires |stamped| == |held| && forall i :: 0 <= i < |held| ==> stamped[i].result == held[i]
      modifies this`emitted
      ensures emitted == old(emitted) + Delivered(stamped, ids)
    {
      var n := 0;
      while n < |held|
        invariant 0 <= n <= |held|
        invariant emitted == old(emitted) + Delivered(stamped, ids)[..n]
      {
        var result := held[n];
        if result.operation.Mount? && result.targetId !in ids.Values {
          result := result.(errorName := StorageError("Disappeared"), mountPath := "");
        }
        assert Delivered(stamped, ids)[..n + 1] == Delivered(stamped, ids)[..n] + [OperationFinished(result)];
        emitted := emitted + [OperationFinished(result)];
        n := n + 1;
      }
      assert Delivered(stamped, ids)[..n] == Delivered(stamped, ids);
    }

    // -------------------------------------------------------------- publishing a snapshot

    /** Give the interface an ID unless it has one. */
    method IdFor(key: Key, uuids: map<Key, Id>)
      requires key !in ids ==> key in uuids
      modifies this`ids
      ensures ids == if key in old(ids) then old(ids) else old(ids)[key := uuids[key]]
    {
      if key !in ids {
        ids := ids[key := uuids[key]];
      }
    }

    method Publish(objects: seq<Object>, uuids: map<Key, Id>)
      requires DistinctPaths(objects) && FreshFor(ids, history.drawn, Live(objects), uuids) && UI.IdsSound(ids, history.drawn)
      modifies this`ids, this`history, this`emitted
      ensures ids == IdsAfter(old(ids), Live(objects), uuids)
      ensures history == old(history).(drawn := old(history).drawn + uuids.Items)
      ensures emitted == old(emitted) + [Published(ids, objects)]
    {
      hide UI.IdsSound, BackingChain.PropagatedOf;
      ghost var b := View();
      UI.PublishedIdsSound(b, Live(objects), uuids);
      AssignIds(objects, uuids);
      history := history.(drawn := history.drawn + uuids.Items);
      var drives, volumes := Decode(objects);
      UI.TableDecodesUniquely(ids, history.drawn, objects);
      var working := new Volume[|volumes|](i requires 0 <= i < |volumes| => volumes[i]);
      assert working[..] == volumes;
      BackingChain.PropagateBacking(working);
      emitted := emitted + [SnapshotChanged(drives, working[..], true)];
    }

    /** First give every live interface its ID, then drop the IDs of all others. */
    method AssignIds(objects: seq<Object>, uuids: map<Key, Id>)
      requires uuids.Keys == Live(objects) - ids.Keys
      modifies this`ids
      ensures ids == IdsAfter(old(ids), Live(objects), uuids)
    {
      var live := NameLive(objects, uuids);
      DropDead(live);
    }

    method NameLive(objects: seq<Object>, uuids: map<Key, Id>) returns (live: set<Key>)
      requires uuids.Keys == Live(objects) - ids.Keys
      modifies this`ids
      ensures live == Live(objects) && ids == old(ids) + uuids
    {
      hide Drawn;
      ghost var before := ids;
      live := {};
      var n := 0;
      NothingDrawn(before, uuids);
      while n < |objects|
        invariant 0 <= n <= |objects|
        invariant live == Live(objects[..n])
        invariant ids == before + Drawn(uuids, live)
      {
        assert objects[..n + 1][..n] == objects[..n];
        assert KeysOf(objects[n]) <= Live(objects) by { assert objects[n] in objects; }
        DrawnMore(before, uuids, live, KeysOf(objects[n]));
        NameObject(objects[n], uuids);
        live := live + KeysOf(objects[n]);
        n := n + 1;
      }
      assert objects[..n] == objects;
      EverythingDrawn(uuids, live);
    }

    /** Give the object's Drive and Block interfaces their IDs. */
    method NameObject(o: Object, uuids: map<Key, Id>)
      requires KeysOf(o) <= ids.Keys + uuids.Keys
      requires forall k :: k in ids && k in uuids ==> ids[k] == uuids[k]
      modifies this`ids
      ensures ids == old(ids) + Drawn(uuids, KeysOf(o))
    {
      if o.drive.Some? {
        IdFor(Key(o.path, DriveInterface), uuids);
      }
      if o.block.Some? {
        IdFor(Key(o.path, BlockInterface), uuids);
      }
    }

    method DropDead(live: set<Key>)
      requires live <= ids.Keys
      modifies this`ids
      ensures ids == map k | k in live :: old(ids)[k]
    {
      var keys := ids.Keys;
      while keys != {}
        invariant keys <= ids.Keys && live <= ids.Keys <= old(ids).Keys
        invariant forall k :: k in ids ==> ids[k] == old(ids)[k] && (k in keys || k in live)
        decreases |keys|
      {
        var k :| k in keys;
        if k !in live {
          ids := ids - {k};
        }
        keys := keys - {k};
      }
    }

    method Decode(objects: seq<Object>) returns (drives: seq<Drive>, volumes: seq<Volume>)
      ensures drives == DrivesOf(ids, objects) && volumes == VolumesOf(ids, objects, objects)
    {
      drives, volumes := [], [];
      var n := 0;
      while n < |objects|
        invariant 0 <= n <= |objects|
        invariant drives == DrivesOf(ids, objects[..n]) && volumes == VolumesOf(ids, objects, objects[..n])
      {
        var o := objects[n];
        assert objects[..n + 1][..n] == objects[..n];
        if o.drive.Some? {
          drives := drives + [DriveRecord(ids, o)];
        }
        if o.block.Some? {
          volumes := volumes + [VolumeRecord(ids, objects, o)];
        }
        n := n + 1;
      }
      assert objects[..n] == objects;
    }

    // -------------------------------------------------------------- operations

    /** The path an ID currently stands for, if it is of the right interface. */
    method PathOf(operation: Operation, targetId: Id) returns (path: Option<string>)
      requires UI.IdsSound(ids, history.drawn)
      ensures path.Some? <==> Targets(ids, operation, targetId)
      ensures path.Some? ==> path.value == TargetOf(ids, operation, targetId).path
    {
      path := None;
      var keys := ids.Keys;
      while keys != {}
        invariant keys <= ids.Keys
        invariant path.Some? <==> exists k :: k in ids && k !in keys && ids[k] == targetId
                                               && k.interface == InterfaceFor(operation)
        invariant path.Some? ==> exists k :: k in ids && ids[k] == targetId && k.path == path.value
        decreases |keys|
      {
        var k :| k in keys;
        if ids[k] == targetId && k.interface == InterfaceFor(operation) {
          path := Some(k.path);
        }
        keys := keys - {k};
      }
      if path.Some? {
        var k :| k in ids && ids[k] == targetId && k.path == path.value;
        OneKeyPerId(ids, history.drawn, k, TargetOf(ids, operation, targetId));
      }
    }

    method Execute(stepId: Id, operation: Operation, targetId: Id)
      requires Valid()
      modifies this
      ensures Valid() && View() == UDisksSpec.Execute(old(View()), stepId, operation, targetId) && emitted == old(emitted)
    {
      hide UI.IdsSound, UI.CallsSound, R.Invariant, Targets, TargetOf, Stamped;
      UI.ExecuteKeeps(View(), stepId, operation, targetId);
      hide UI.Invariant;
      var path := PathOf(operation, targetId);
      var result := Result(stepId, targetId, operation, "", "");
      if path.None? || owner == "" {
        history := history.(immediate := history.immediate + multiset{result.(errorName := StorageError("Disappeared"))});
        return;
      }
      history := history.(operations := history.operations[history.clock := OperationCall(generation, path.value, result)],
                          clock := history.clock + 1);
    }

    /** The operation call sent at moment t finished; its callback remembered generation and result. */
    method OnOperationReply(ghost t: nat, atGeneration: nat, pending: Result, reply: OperationReply)
      requires Valid() && t in history.operations
      requires history.operations[t].generation == atGeneration && history.operations[t].result == pending
      modifies this
      ensures Valid() && View() == OperationAnswered(old(View()), t, reply) && emitted == old(emitted)
    {
      hide UI.Invariant, ResultOf, Checked, UDisksSpec.Changed, Stamped;
      UI.OperationAnsweredKeeps(View(), t, reply);
      history := history.(operations := history.operations - {t});
      if atGeneration != generation {
        return;
      }
      var result := Judge(pending, reply);
      StampedOneMore(completions, history.arrivals, result, history.clock);
      completions, history := completions + [result], history.(arrivals := history.arrivals + [history.clock]);
      Changed();
    }

    /** What the reply makes of the pending result. */
    method Judge(pending: Result, reply: OperationReply) returns (result: Result)
      ensures result == Checked(ResultOf(pending, reply), ids)
    {
      result := pending;
      match reply {
        case Failure(errorName) => result := result.(errorName := errorName);
        case Success(path) =>
          if result.operation.Mount? {
            result := result.(mountPath := path);
          }
      }
      if result.operation.Mount? && result.targetId !in ids.Values {
        result := result.(errorName := StorageError("Disappeared"), mountPath := "");
      }
    }

    /** A queued failure leaves the event loop. */
    method OnExpire(result: Result)
      requires result in history.immediate
      modifies this
      ensures View() == Expire(old(View()), result).state && emitted == old(emitted) + Expire(old(View()), result).signals
    {
      history := history.(immediate := history.immediate - multiset{result});
      emitted := emitted + [OperationFinished(result)];
    }
  }
}
