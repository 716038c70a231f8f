/** What StorageController knows after a snapshot: the drives and volumes of the reply, under IDs of their own. */
module StorageModels {
  import opened Prelude
  import opened StorageTypes
  import opened StorageSystem
  import opened StorageSystemInvariant
  import C = ControllerSpec
  import CD = ControllerDecisions
  import CI = ControllerInvariant
  import CG = ControllerGuarantees
  import BackingChain
  import L = LifetimeIds
  import RecordModel
  import R = RefreshProtocol
  import T = StorageSystemTheorems
  import U = UDisksSpec
  import UE = UDisksEffects
  import UI = UDisksInvariant

  // ---------------------------------------------------------------- the models show the snapshot

  lemma {:induction false} DrivesHaveUniqueIds(ids: map<U.Key, Id>, part: seq<U.Object>)
    requires U.DistinctPaths(part)
    requires forall o :: o in part && o.drive.Some? ==> U.Key(o.path, U.DriveInterface) in ids
    requires forall k, k' :: k in ids && k' in ids && ids[k] == ids[k'] ==> k == k'
    ensures Distinct(RecordModel.IdsOf(C.DriveId(), U.DrivesOf(ids, part)))
    ensures forall d :: d in U.DrivesOf(ids, part) ==>
              exists o :: o in part && o.drive.Some? && d.id == ids[U.Key(o.path, U.DriveInterface)]
  {
    if part != [] {
      var n := |part| - 1;
      var before, last := U.DrivesOf(ids, part[..n]), part[n];
      DrivesHaveUniqueIds(ids, part[..n]);
      forall d | d in before
        ensures exists o :: o in part && o.drive.Some? && d.id == ids[U.Key(o.path, U.DriveInterface)]
        ensures last.drive.Some? ==> d.id != ids[U.Key(last.path, U.DriveInterface)]
      {
        var o :| o in part[..n] && o.drive.Some? && d.id == ids[U.Key(o.path, U.DriveInterface)];
        assert o.path != last.path;
      }
    }
  }

  ghost predicate ListsKept(c: C.Controller, c': C.Controller) {
    c'.drives == c.drives && c'.volumes == c.volumes && c'.available == c.available
  }

  lemma AdvanceKeepsLists(c: C.Controller, id: Id, step: Id)
    requires id in c.requests ==> id in c.traces
    ensures ListsKept(c, C.Advance(c, id, step).state)
  {
    hide C.TopologyError, C.RemovalError, C.FindVolume;
  }

  lemma SettleKeepsLists(c: C.Controller, result: Result, step: Id)
    requires forall id :: id in c.requests ==> id in c.traces
    ensures ListsKept(c, C.Settle(c, result, step).state)
  {
    hide C.Advance;
    if id :| C.Awaits(c.requests, id, result.requestId) {
      forall x | x in c.requests ensures ListsKept(c, C.Advance(C.StepCleared(C.Acknowledged(c, x), x), x, step).state) {
        AdvanceKeepsLists(C.StepCleared(C.Acknowledged(c, x), x), x, step);
      }
    }
  }

  lemma {:induction false} ResultsKeepLists(s: System, signals: seq<U.Signal>, steps: seq<Id>)
    requires |steps| == |signals| && forall g :: g in signals ==> g.OperationFinished?
    ensures ListsKept(s.controller, HandleAll(s, signals, steps).controller)
    decreases |signals|
  {
    hide C.Settle;
    if signals != [] && s.controller.requests.Keys <= s.controller.traces.Keys {
      assert signals[0] in signals;
      SettleKeepsLists(s.controller, signals[0].result, steps[0]);
      ResultsKeepLists(Handle(s, signals[0], steps[0]), signals[1..], steps[1..]);
    }
  }

  /** Same records, whatever their order. */
  ghost predicate SameRecords<T(!new)>(a: seq<T>, b: seq<T>) {
    forall x :: x in a <==> x in b
  }

  /** In every run: after a publication the controller's models hold exactly the drives and volumes published. */
  lemma ModelsShowTheSnapshot(service: string, events: seq<Event>, e: Event)
    requires var s := Run(service, events);
             && e.SnapshotAnswered? && Enabled(s, e) && e.objects.Some?
             && R.VerdictOn(s.backend.refresh, e.at, true).Published?
    ensures var s := Run(service, events);
            var shown := U.Answered(s.backend, e.at, e.objects, e.uuids).signals[0];
            var c := Step(s, e).controller;
            && c.available && shown.SnapshotChanged?
            && SameRecords(c.drives, shown.drives) && SameRecords(c.volumes, shown.volumes)
  {
    var s := Run(service, events);
    T.EveryRunKeepsInvariant(service, events);
    PublicationIsTaken(s, e);
  }

  /**
   In every run: after a publication the controller knows exactly the drives and block devices of the reply, each with
   what its object says and under the ID of its interface; drive and loop are inherited along backing devices.
   */
  lemma ModelsShowTheReply(service: string, events: seq<Event>, e: Event)
    requires var s := Run(service, events);
             && e.SnapshotAnswered? && Enabled(s, e) && e.objects.Some?
             && R.VerdictOn(s.backend.refresh, e.at, true).Published?
    ensures var s' := Step(Run(service, events), e);
            && (forall d :: d in s'.controller.drives <==> exists o :: o in e.objects.value && UE.ShowsDrive(d, o, s'.backend.ids))
            && exists shown :: UE.ShowsReply(s'.controller.drives, shown, e.objects.value, s'.backend.ids)
                               && SameRecords(s'.controller.volumes, shown)
  {
    hide Run, Step, Enabled, Invariant, UE.ShowsReply, UE.ShowsDrive, SameRecords;
    T.EveryRunKeepsInvariant(service, events);
    PublicationShowsReply(Run(service, events), e);
  }

  /** So each volume stands for a block object of the reply, and each block object has its volume. */
  lemma VolumesStandForObjects(service: string, events: seq<Event>, e: Event)
    requires var s := Run(service, events);
             && e.SnapshotAnswered? && Enabled(s, e) && e.objects.Some?
             && R.VerdictOn(s.backend.refresh, e.at, true).Published?
    ensures var s' := Step(Run(service, events), e);
            && (forall v :: v in s'.controller.volumes ==> exists o :: o in e.objects.value && UE.StandsFor(v, o, s'.backend.ids))
            && (forall o :: o in e.objects.value && o.block.Some? ==>
                  exists v :: v in s'.controller.volumes && UE.StandsFor(v, o, s'.backend.ids))
  {
    hide Run, Step, Enabled, UE.ShowsReply, UE.ShowsDrive, UE.StandsFor;
    ModelsShowTheReply(service, events, e);
    var s' := Step(Run(service, events), e);
    var shown :| UE.ShowsReply(s'.controller.drives, shown, e.objects.value, s'.backend.ids) && SameRecords(s'.controller.volumes, shown);
    UE.ShownVolumesStandForObjects(s'.controller.drives, shown, e.objects.value, s'.backend.ids);
  }

  lemma PublicationShowsReply(s: System, e: Event)
    requires Invariant(s) && e.SnapshotAnswered? && Enabled(s, e) && e.objects.Some?
    requires R.VerdictOn(s.backend.refresh, e.at, true).Published?
    ensures var s' := Step(s, e);
            && (forall d :: d in s'.controller.drives <==> exists o :: o in e.objects.value && UE.ShowsDrive(d, o, s'.backend.ids))
            && exists shown :: UE.ShowsReply(s'.controller.drives, shown, e.objects.value, s'.backend.ids)
                               && SameRecords(s'.controller.volumes, shown)
  {
    hide Step, Enabled, Invariant, U.Answered, U.Live, UE.ShowsDrive, UE.ShowsBlock, UE.TableNames, BackingChain.Propagated;
    EnabledReply(s, e);
    PublicationIsTaken(s, e);
    TableStays(s, e);
    UE.SnapshotReplyDecides(s.backend, e.at, e.objects, e.uuids);
    var shown := U.Answered(s.backend, e.at, e.objects, e.uuids).signals[0];
    var s' := Step(s, e);
    assert UE.ShowsReply(shown.drives, shown.volumes, e.objects.value, s'.backend.ids);
    assert UE.ShowsReply(s'.controller.drives, shown.volumes, e.objects.value, s'.backend.ids);
  }

  lemma EnabledReply(s: System, e: Event)
    requires Enabled(s, e) && e.SnapshotAnswered? && e.objects.Some?
    ensures e.at in s.backend.refresh.calls && e.uuids.Keys == U.Live(e.objects.value) - s.backend.ids.Keys
  {
    hide U.Answered, U.Live;
  }

  lemma TableStays(s: System, e: Event)
    requires Invariant(s) && e.SnapshotAnswered? && Enabled(s, e) && e.objects.Some?
    requires e.uuids.Keys == U.Live(e.objects.value) - s.backend.ids.Keys
    ensures Step(s, e).backend.ids == U.Answered(s.backend, e.at, e.objects, e.uuids).state.ids
  {
    SnapshotAnsweredStep(s, e.at, e.objects, e.uuids, e.steps);
    hide HandleAll, Invariant, CG.Extends, U.Answered, U.Live, U.DistinctPaths;
  }

  /**
   In every run: once a publication and all it sets off is over, the table names exactly the Drive and Block interfaces of
   the reply, under IDs that were drawn for them and, if they had one before, the same as before.
   */
  lemma TableIsTheSnapshot(service: string, events: seq<Event>, e: Event)
    requires var s := Run(service, events);
             && e.SnapshotAnswered? && Enabled(s, e) && e.objects.Some?
             && R.VerdictOn(s.backend.refresh, e.at, true).Published?
    ensures var b, b' := Run(service, events).backend, Step(Run(service, events), e).backend;
            UI.TableOf(b.ids, U.Live(e.objects.value), b'.ids, b'.drawn)
  {
    hide Invariant, UI.TableOf, U.Live, Step, Enabled;
    T.EveryRunKeepsInvariant(service, events);
    assert e == SnapshotAnswered(e.at, e.objects, e.uuids, e.steps);
    PublicationInstallsTable(Run(service, events), e.at, e.objects.value, e.uuids, e.steps);
  }

  lemma PublicationInstallsTable(s: System, t: nat, objects: seq<U.Object>, uuids: map<U.Key, Id>, steps: seq<Id>)
    requires Invariant(s) && Enabled(s, SnapshotAnswered(t, Some(objects), uuids, steps))
    requires R.VerdictOn(s.backend.refresh, t, true).Published?
    ensures var b' := Step(s, SnapshotAnswered(t, Some(objects), uuids, steps)).backend;
            UI.TableOf(s.backend.ids, U.Live(objects), b'.ids, b'.drawn)
  {
    hide Invariant, Enabled, Step, After, R.VerdictOn, CG.Extends, UI.IdsSound, UI.TableOf, U.Answered, U.Live, L.FreshFor;
    ReplyMatches(s, t, objects, uuids, steps);
    SnapshotAnsweredStep(s, t, Some(objects), uuids, steps);
    UI.PublishedTableIsTheSnapshot(s.backend, t, objects, uuids);
  }

  lemma ReplyMatches(s: System, t: nat, objects: seq<U.Object>, uuids: map<U.Key, Id>, steps: seq<Id>)
    requires Invariant(s) && Enabled(s, SnapshotAnswered(t, Some(objects), uuids, steps))
    ensures UI.IdsSound(s.backend.ids, s.backend.drawn) && t in s.backend.refresh.calls
    ensures L.FreshFor(s.backend.ids, s.backend.drawn, U.Live(objects), uuids)
    ensures uuids.Keys == U.Live(objects) - s.backend.ids.Keys
    ensures |steps| == |U.Answered(s.backend, t, Some(objects), uuids).signals|
    ensures Step(s, SnapshotAnswered(t, Some(objects), uuids, steps)) ==
            After(s, U.Answered(s.backend, t, Some(objects), uuids), steps)
  {
    hide Linked, StaleCallsRetired, LogJustified, StepsKnown, CI.Invariant, R.Invariant, UI.CallsSound, UI.IdsSound, U.Answered,
         U.Live, FreshSteps, HandleAll;
  }

  lemma PublicationIsTaken(s: System, e: Event)
    requires Invariant(s) && e.SnapshotAnswered? && Enabled(s, e) && e.objects.Some?
    requires R.VerdictOn(s.backend.refresh, e.at, true).Published?
    ensures var shown := U.Answered(s.backend, e.at, e.objects, e.uuids).signals[0];
            var c := Step(s, e).controller;
            && c.available && shown.SnapshotChanged?
            && SameRecords(c.drives, shown.drives) && SameRecords(c.volumes, shown.volumes)
  {
    hide Linked, StaleCallsRetired, LogJustified, StepsKnown, CI.Scopes, CI.Conserved, CI.Traced, UI.CallsSound,
         U.Published, R.Invariant, SameRecords;
    var m := U.Answered(s.backend, e.at, e.objects, e.uuids);
    var shown, rest := m.signals[0], m.signals[1..];
    assert m.signals == [shown] + rest && forall g :: g in rest ==> g.OperationFinished?;
    PublishedRecordsAreUnique(s.backend, e.at, e.objects.value, e.uuids);
    var s' := Handle(s.(backend := m.state), shown, e.steps[0]);
    ResultsKeepLists(s', rest, e.steps[1..]);
    assert Step(s, e) == HandleAll(s', rest, e.steps[1..]);
    TakenSnapshotIsShown(s.controller, shown.drives, shown.volumes);
  }

  lemma TakenSnapshotIsShown(c: C.Controller, drives: seq<Drive>, volumes: seq<Volume>)
    requires CI.Lists(c)
    requires Distinct(RecordModel.IdsOf(C.DriveId(), drives)) && Distinct(RecordModel.IdsOf(C.VolumeId(), volumes))
    ensures SameRecords(C.TakeSnapshot(c, drives, volumes, true).drives, drives)
    ensures SameRecords(C.TakeSnapshot(c, drives, volumes, true).volumes, volumes)
  {
    RecordModel.ReconciledMembers(C.DriveId(), c.drives, drives);
    RecordModel.ReconciledMembers(C.VolumeId(), c.volumes, volumes);
    hide RecordModel.Reconciled;
  }

  lemma PublishedRecordsAreUnique(b: U.Backend, t: nat, objects: seq<U.Object>, uuids: map<U.Key, Id>)
    requires UI.IdsSound(b.ids, b.drawn) && t in b.refresh.calls
    requires U.DistinctPaths(objects) && L.FreshFor(b.ids, b.drawn, U.Live(objects), uuids)
    requires R.VerdictOn(b.refresh, t, true).Published?
    ensures var shown := U.Answered(b, t, Some(objects), uuids).signals[0];
            && shown.SnapshotChanged? && shown.available
            && Distinct(RecordModel.IdsOf(C.DriveId(), shown.drives)) && Distinct(RecordModel.IdsOf(C.VolumeId(), shown.volumes))
  {
    UI.PublishedVolumes(b, t, objects, uuids);
    UI.PublishedIdsSound(b, U.Live(objects), uuids);
    var ids := L.IdsAfter(b.ids, U.Live(objects), uuids);
    forall k, k' | k in ids && k' in ids && ids[k] == ids[k'] ensures k == k' {
      L.OneKeyPerId(ids, b.drawn + uuids.Items, k, k');
    }
    forall o | o in objects && o.drive.Some? ensures U.Key(o.path, U.DriveInterface) in ids {
      assert U.Key(o.path, U.DriveInterface) in U.KeysOf(o);
    }
    DrivesHaveUniqueIds(ids, objects);
    hide L.IdsAfter, U.Live, L.FreshFor, L.Sound, UI.IdsSound, BackingChain.PropagatedOf;
  }
  // ---------------------------------------------------------------- nothing is affected twice

  /** What is known of drives and volumes carries IDs drawn for Drive and Block interfaces. */
  ghost predicate KnownIdsDrawn(drives: seq<Drive>, volumes: seq<Volume>, drawn: set<(U.Key, Id)>) {
    && (forall d :: d in drives ==> exists path :: (U.Key(path, U.DriveInterface), d.id) in drawn)
    && (forall v :: v in volumes ==> exists path :: (U.Key(path, U.BlockInterface), v.id) in drawn)
  }

  lemma StepKeepsKnown(s: System, e: Event)
    requires Invariant(s) && KnownIdsDrawn(s.controller.drives, s.controller.volumes, s.backend.drawn)
    ensures KnownIdsDrawn(Step(s, e).controller.drives, Step(s, e).controller.volumes, Step(s, e).backend.drawn)
  {
    hide Invariant, KnownIdsDrawn;
    assert Continues(s, Step(s, e)) by { T.StepKeeps(s, e); }
    DrawnGrows(s, Step(s, e));
    if Published(s, e) {
      PublicationKnows(s, e);
    } else {
      NothingNewKnown(s, e);
      FewerKnown(s.controller, Step(s, e).controller, s.backend.drawn, Step(s, e).backend.drawn);
    }
    hide Step, Continues;
  }

  ghost predicate Published(s: System, e: Event) {
    e.SnapshotAnswered? && Enabled(s, e) && e.objects.Some? && R.VerdictOn(s.backend.refresh, e.at, true).Published?
  }

  lemma DrawnGrows(s: System, s': System)
    requires Continues(s, s')
    ensures s.backend.drawn <= s'.backend.drawn
  {}

  ghost predicate NoneNew(c: C.Controller, c': C.Controller) {
    (c'.drives == c.drives && c'.volumes == c.volumes) || (c'.drives == [] && c'.volumes == [])
  }

  lemma FewerKnown(c: C.Controller, c': C.Controller, drawn: set<(U.Key, Id)>, drawn': set<(U.Key, Id)>)
    requires KnownIdsDrawn(c.drives, c.volumes, drawn) && NoneNew(c, c') && drawn <= drawn'
    ensures KnownIdsDrawn(c'.drives, c'.volumes, drawn')
  {}

  lemma PublicationKnows(s: System, e: Event)
    requires Invariant(s) && Published(s, e)
    ensures KnownIdsDrawn(Step(s, e).controller.drives, Step(s, e).controller.volumes, Step(s, e).backend.drawn)
  {
    hide Invariant, Step, Enabled, U.Live;
    EnabledReply(s, e);
    PublicationInstallsTable(s, e.at, e.objects.value, e.uuids, e.steps);
    assert e == SnapshotAnswered(e.at, e.objects, e.uuids, e.steps);
    PublicationShowsReply(s, e);
    var s' := Step(s, e);
    var shown :| UE.ShowsReply(s'.controller.drives, shown, e.objects.value, s'.backend.ids) && SameRecords(s'.controller.volumes, shown);
    UE.ShownVolumesStandForObjects(s'.controller.drives, shown, e.objects.value, s'.backend.ids);
    hide BackingChain.Propagated, UE.ShowsBlock, UE.ShowsReply;
    forall d | d in s'.controller.drives ensures exists path :: (U.Key(path, U.DriveInterface), d.id) in s'.backend.drawn {
      var o :| o in e.objects.value && UE.ShowsDrive(d, o, s'.backend.ids);
      KeyIsLive(e.objects.value, o);
      assert (U.Key(o.path, U.DriveInterface), d.id) in s'.backend.drawn;
    }
    forall v | v in s'.controller.volumes ensures exists path :: (U.Key(path, U.BlockInterface), v.id) in s'.backend.drawn {
      var o :| o in e.objects.value && UE.StandsFor(v, o, s'.backend.ids);
      KeyIsLive(e.objects.value, o);
      assert (U.Key(o.path, U.BlockInterface), v.id) in s'.backend.drawn;
    }
  }

  lemma KeyIsLive(objects: seq<U.Object>, o: U.Object)
    requires o in objects
    ensures o.drive.Some? ==> U.Key(o.path, U.DriveInterface) in U.Live(objects)
    ensures o.block.Some? ==> U.Key(o.path, U.BlockInterface) in U.Live(objects)
  {
    assert o.drive.Some? ==> U.Key(o.path, U.DriveInterface) in U.KeysOf(o);
    assert o.block.Some? ==> U.Key(o.path, U.BlockInterface) in U.KeysOf(o);
  }

  lemma WithdrawalKnowsNothing(s: System)
    ensures C.TakeSnapshot(s.controller, [], [], false).drives == [] && C.TakeSnapshot(s.controller, [], [], false).volumes == []
  {
    CD.WithdrawalDecides(s.controller, [], []);
  }

  lemma NothingNewKnown(s: System, e: Event)
    requires Invariant(s) && !Published(s, e)
    ensures NoneNew(s.controller, Step(s, e).controller)
  {
    hide Invariant, C.TakeSnapshot, C.Dequeue, C.Begin, C.Settle, U.Answered, U.NameAnswered, U.OwnerChanged, U.Stop, R.VerdictOn;
    RequestsKnown(s);
    if Enabled(s, e) {
      WithdrawalKnowsNothing(s);
      match e {
        case Begin(id, operation, targetId, confirmed) => BeginKeepsLists(s.controller, id, operation, targetId, confirmed);
        case Dequeue(id, step) => DequeueKeepsLists(s.controller, id, step);
        case SnapshotAnswered(t, objects, uuids, steps) => UnpublishedReply(s, t, objects, uuids, steps);
        case Expire(result, step) =>
          SettleKeepsLists(s.controller, result, step);
          ExpiryHandled(s, result, step);
        case _ =>
      }
    }
  }

  lemma RequestsKnown(s: System)
    requires Invariant(s)
    ensures s.controller.requests.Keys <= s.controller.traces.Keys
  {}

  lemma BeginKeepsLists(c: C.Controller, id: Id, operation: Operation, targetId: Id, confirmed: seq<Id>)
    ensures ListsKept(c, C.Begin(c, id, operation, targetId, confirmed))
  {}

  lemma DequeueKeepsLists(c: C.Controller, id: Id, step: Id)
    requires id in c.queued && (id in c.requests ==> id in c.traces)
    ensures ListsKept(c, C.Dequeue(c, id, step).state)
  {
    hide C.Advance;
    AdvanceKeepsLists(C.QueueDropped(c, id), id, step);
  }

  lemma ExpiryHandled(s: System, result: Result, step: Id)
    requires result in s.backend.immediate && s.controller.requests.Keys <= s.controller.traces.Keys
    ensures After(s, U.Expire(s.backend, result), [step]).controller == C.Settle(s.controller, result, step).state
  {
    hide C.Settle;
    var m := U.Expire(s.backend, result);
    var s' := s.(backend := m.state);
    assert m.signals == [U.OperationFinished(result)];
    assert HandleAll(s', m.signals, [step]) == Handle(s', m.signals[0], [step][0]);
  }

  lemma UnpublishedReply(s: System, t: nat, objects: Option<seq<U.Object>>, uuids: map<U.Key, Id>, steps: seq<Id>)
    requires Enabled(s, SnapshotAnswered(t, objects, uuids, steps)) && !Published(s, SnapshotAnswered(t, objects, uuids, steps))
    requires s.controller.requests.Keys <= s.controller.traces.Keys
    ensures NoneNew(s.controller, Step(s, SnapshotAnswered(t, objects, uuids, steps)).controller)
  {
    hide C.TakeSnapshot;
    WithdrawalKnowsNothing(s);
    var m := U.Answered(s.backend, t, objects, uuids);
    var s' := s.(backend := m.state);
    if m.signals != [] {
      assert m.signals == [U.WITHDRAWN];
      assert HandleAll(s', m.signals, steps) == Handle(s', m.signals[0], steps[0]);
    }
  }

  lemma {:induction false} EveryRunKnowsDrawnIds(service: string, events: seq<Event>)
    ensures var s := Run(service, events); KnownIdsDrawn(s.controller.drives, s.controller.volumes, s.backend.drawn)
  {
    hide Step, KnownIdsDrawn;
    if events == [] {
      NothingKnown(service);
    } else {
      var before, e := events[..|events| - 1], events[|events| - 1];
      EveryRunKnowsDrawnIds(service, before);
      T.EveryRunKeepsInvariant(service, before);
      StepKeepsKnown(Run(service, before), e);
    }
  }

  lemma NothingKnown(service: string)
    ensures var s := Run(service, []); KnownIdsDrawn(s.controller.drives, s.controller.volumes, s.backend.drawn)
  {}

  /**
   In every run: what a removal affects, and what it has to unmount, lists each ID once. So the sorted scope that the user
   confirms has one form only.
   */
  lemma ScopesListEachOnce(service: string, events: seq<Event>, operation: Operation, targetId: Id)
    requires operation in {Eject, PowerOff}
    ensures var c := Run(service, events).controller;
            var scope := C.ScopeFor(c, operation, targetId);
            Distinct(scope) && SortedIds(scope) && Distinct(C.UnmountsFor(c, operation, scope))
  {
    T.EveryRunKeepsInvariant(service, events);
    EveryRunKnowsDrawnIds(service, events);
    var s := Run(service, events);
    forall d, v | d in s.controller.drives && v in s.controller.volumes ensures d.id != v.id {
      var p :| (U.Key(p, U.DriveInterface), d.id) in s.backend.drawn;
      var q :| (U.Key(q, U.BlockInterface), v.id) in s.backend.drawn;
      if d.id == v.id { T.IdsAreNeverShared(service, events, U.Key(p, U.DriveInterface), U.Key(q, U.BlockInterface), d.id); }
    }
    CD.ScopeListsEachOnce(s.controller, operation, targetId);
    hide Run, C.UnmountsFor;
  }
}
