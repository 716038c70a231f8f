/**
 StorageController itself: the object whose methods reserve scopes, unmount and remove step by step and react to the
 backend's signals. Each method is proved against its function in ControllerSpec.
 */
module StorageController {
  import opened Prelude
  import opened StorageTypes
  import opened ControllerSpec
  import CI = ControllerInvariant
  import RecordModel

  /** How often each request was reported. */
  ghost function ReportedIds(reported: seq<Result>): multiset<Id> {
    if reported == [] then multiset{}
    else ReportedIds(reported[..|reported| - 1]) + multiset{reported[|reported| - 1].requestId}
  }

  /** The signals emitted are exactly the reports on record: each request as often as recorded, with its recorded result. */
  ghost predicate Accounted(reported: seq<Result>, pending: set<Id>, finished: multiset<Id>, results: map<Id, Result>) {
    && ReportedIds(reported) == finished
    && (forall id :: id in pending ==> id !in finished)
    && (forall r :: r in reported ==> r.requestId in results && results[r.requestId] == r)
  }

  lemma {:induction false} ReportedMembers(reported: seq<Result>)
    ensures forall r :: r in reported ==> r.requestId in ReportedIds(reported)
  {
    if reported != [] {
      var n := |reported| - 1;
      ReportedMembers(reported[..n]);
      assert reported == reported[..n] + [reported[n]];
    }
  }

  lemma OneMoreAccounted(reported: seq<Result>, pending: set<Id>, finished: multiset<Id>, results: map<Id, Result>, r: Result)
    requires Accounted(reported, pending, finished, results) && r.requestId in pending
    ensures Accounted(reported + [r], pending - {r.requestId}, finished + multiset{r.requestId}, results[r.requestId := r])
  {
    ReportedMembers(reported);
    assert (reported + [r])[..|reported|] == reported;
  }

  lemma OneMorePending(reported: seq<Result>, pending: set<Id>, finished: multiset<Id>, results: map<Id, Result>, id: Id)
    requires Accounted(reported, pending, finished, results) && id !in finished
    ensures Accounted(reported, pending + {id}, finished, results)
  {}

  class Controller {
    var available: bool
    var requests: map<Id, Request>
    const drives: RecordModel.ListModel<Drive>
    const volumes: RecordModel.ListModel<Volume>
    /** operationFinished signals, in the order emitted. */
    var reported: seq<Result>

    ghost var queued: map<Id, string>
    ghost var minted: set<Id>
    ghost var traces: map<Id, Trace>
    ghost var finished: multiset<Id>
    ghost var results: map<Id, Result>

    ghost function View(): ControllerSpec.Controller
      reads this, drives, volumes
    {
      ControllerSpec.Controller(available, requests, drives.items, volumes.items, queued, minted, traces, finished, results)
    }

    ghost predicate Wired()
      reads this, drives, volumes
    {
      && drives as object != volumes as object
      && drives.idOf == DriveId() && volumes.idOf == VolumeId()
      && requests.Keys <= traces.Keys
      && drives.Valid() && volumes.Valid()
      && Accounted(reported, requests.Keys, finished, results)
    }

    ghost predicate Valid()
      reads this, drives, volumes
    {
      Wired() && CI.Invariant(View())
    }

    constructor ()
      ensures Valid() && View() == Initial() && reported == []
      ensures fresh(drives) && fresh(volumes)
    {
      hide CI.Invariant;
      CI.InitialHolds();
      available, requests, reported := false, map[], [];
      queued, minted, traces, finished, results := map[], {}, map[], multiset{}, map[];
      drives := new RecordModel.ListModel<Drive>(DriveId());
      volumes := new RecordModel.ListModel<Volume>(VolumeId());
    }

    method IsBusy(targetId: Id) returns (held: bool)
      ensures held == Busy(requests, targetId)
    {
      held := false;
      var keys := requests.Keys;
      while keys != {} && !held
        invariant keys <= requests.Keys
        invariant held ==> Busy(requests, targetId)
        invariant !held ==> forall id :: id in requests && id !in keys ==> targetId !in requests[id].scope
        decreases |keys|
      {
        var id :| id in keys;
        held := targetId in requests[id].scope;
        keys := keys - {id};
      }
    }

    method AnyHeld(scope: seq<Id>) returns (held: bool)
      ensures held == AnyBusy(requests, scope)
    {
      held := false;
      var i := 0;
      while i < |scope|
        invariant 0 <= i <= |scope|
        invariant held <==> exists j :: 0 <= j < i && Busy(requests, scope[j])
      {
        var busy := IsBusy(scope[i]);
        held := held || busy;
        i := i + 1;
      }
    }

    /** Sorted IDs of every drive and volume that a removal of `driveId` affects. */
    method RemovalScopeOf(driveId: Id, powerOff: bool) returns (scope: seq<Id>)
      requires drives.idOf == DriveId()
      ensures scope == RemovalScope(drives.items, volumes.items, driveId, powerOff)
    {
      var drive := drives.FindItem(driveId);
      if drive.None? {
        return [];
      }
      assert drive.value.id == driveId;
      var affected := [driveId];
      if powerOff && drive.value.siblingId != "" {
        var i := 0;
        while i < |drives.items|
          invariant 0 <= i <= |drives.items|
          invariant affected == [driveId] + SiblingIds(drives.items[..i], driveId, drive.value.siblingId)
        {
          var other := drives.items[i];
          assert drives.items[..i + 1][..i] == drives.items[..i];
          if other.id != driveId && other.siblingId == drive.value.siblingId {
            affected := affected + [other.id];
          }
          i := i + 1;
        }
        assert drives.items[..i] == drives.items;
      }
      assert affected == AffectedDrives(drives.items, drive.value, powerOff);
      scope := affected;
      var j := 0;
      while j < |volumes.items|
        invariant 0 <= j <= |volumes.items|
        invariant scope == affected + VolumesOn(volumes.items[..j], affected)
      {
        assert volumes.items[..j + 1][..j] == volumes.items[..j];
        if volumes.items[j].driveId in affected {
          scope := scope + [volumes.items[j].id];
        }
        j := j + 1;
      }
      assert volumes.items[..j] == volumes.items;
      scope := SortIds(scope);
    }

    /** The in-scope volumes that are mounted, in model order. */
    method MountedVolumes(scope: seq<Id>) returns (mounted: seq<Id>)
      ensures mounted == MountedIn(volumes.items, scope)
    {
      mounted := [];
      var i := 0;
      while i < |volumes.items|
        invariant 0 <= i <= |volumes.items|
        invariant mounted == MountedIn(volumes.items[..i], scope)
      {
        assert volumes.items[..i + 1][..i] == volumes.items[..i];
        if volumes.items[i].id in scope && volumes.items[i].mountPoints != [] {
          mounted := mounted + [volumes.items[i].id];
        }
        i := i + 1;
      }
      assert volumes.items[..i] == volumes.items;
    }

    /** The scope an operation would reserve and why it would be refused, before looking at other requests. */
    method Assess(operation: Operation, targetId: Id, confirmed: seq<Id>)
      returns (scope: seq<Id>, failure: string)
      requires Wired()
      ensures scope == ScopeFor(View(), operation, targetId)
      ensures failure == Objection(View(), operation, targetId, confirmed)
    {
      hide RemovalScope, RecordModel.Find, RecordModel.RowOf, SortIds;
      failure := if available then "" else "Unavailable";
      if operation.Removal() {
        var drive := drives.FindItem(targetId);
        scope := RemovalScopeOf(targetId, operation.PowerOff?);
        if drive.None? {
          failure := "Disappeared";
        } else if !Capable(drive.value, operation) {
          failure := "NotSupported";
        }
        if operation.PowerOff? && drive.Some? && SortIds(confirmed) != scope {
          failure := "ScopeChanged";
        }
      } else {
        var volume := volumes.FindItem(targetId);
        scope := [targetId];
        if volume.None? {
          failure := "Disappeared";
        } else {
          if volume.value.driveId != "" {
            scope := scope + [volume.value.driveId];
          }
          if !(if operation.Mount? then volume.value.canMount else volume.value.canUnmount) {
            failure := "NotSupported";
          }
        }
      }
    }

    /** A target in use overrides every other reason to refuse. */
    method Examine(operation: Operation, targetId: Id, confirmed: seq<Id>) returns (scope: seq<Id>, failure: string)
      requires Wired()
      ensures scope == ScopeFor(View(), operation, targetId)
      ensures failure == Refusal(View(), operation, targetId, confirmed)
    {
      hide Objection, ScopeFor, Busy;
      scope, failure := Assess(operation, targetId, confirmed);
      var held := AnyHeld(scope);
      if held {
        failure := "Busy";
      }
    }

    method UnmountsNeeded(operation: Operation, scope: seq<Id>) returns (unmounts: seq<Id>)
      ensures unmounts == UnmountsFor(View(), operation, scope)
    {
      unmounts := [];
      if operation.Removal() {
        unmounts := MountedVolumes(scope);
      }
    }

    method Begin(identifier: Id, operation: Operation, targetId: Id, confirmed: seq<Id>)
      requires Valid() && identifier != "" && identifier !in minted
      modifies this
      ensures Valid() && View() == ControllerSpec.Begin(old(View()), identifier, operation, targetId, confirmed)
      ensures reported == old(reported)
    {
      hide CI.Invariant, Refusal, ScopeFor, UnmountsFor, PlanOf, RecordModel.IdsOf, Accounted, ControllerSpec.Begin;
      NewRequestIsUnreported(View(), identifier);
      CI.BeginKeeps(View(), identifier, operation, targetId, confirmed);
      var scope, failure := Examine(operation, targetId, confirmed);
      var unmounts := UnmountsNeeded(operation, scope);
      BeginRegisters(View(), identifier, operation, targetId, confirmed);
      var reserved := if failure == "" then scope else [];
      Register(identifier, Request(operation, targetId, reserved, unmounts, "", false), failure,
               Trace(PlanOf(unmounts, operation, targetId), scope, confirmed, [], 0));
    }

    /** Insert the request and queue its callback. */
    method Register(identifier: Id, request: Request, failure: string, ghost trace: Trace)
      requires Wired() && identifier !in finished
      modifies this
      ensures Wired() && reported == old(reported)
      ensures View() == old(View()).(requests := old(requests)[identifier := request],
                                     queued := old(queued)[identifier := failure], minted := old(minted) + {identifier},
                                     traces := old(traces)[identifier := trace])
    {
      hide Accounted, CI.Invariant, RecordModel.IdsOf;
      OneMorePending(reported, requests.Keys, finished, results, identifier);
      assert requests[identifier := request].Keys == requests.Keys + {identifier};
      requests := requests[identifier := request];
      queued := queued[identifier := failure];
      minted := minted + {identifier};
      traces := traces[identifier := trace];
    }

    method Finish(identifier: Id, errorName: string, mountPath: string)
      requires Wired()
      modifies this
      ensures Wired() && View() == ControllerSpec.Finish(old(View()), identifier, errorName, mountPath)
      ensures reported == old(reported) + if identifier in old(requests)
                                          then [ResultOf(identifier, old(requests)[identifier], errorName, mountPath)] else []
    {
      if identifier !in requests {
        return;
      }
      var result := ResultOf(identifier, requests[identifier], errorName, mountPath);
      hide Accounted, ResultOf, RecordModel.IdsOf;
      Report(identifier, result);
    }

    /** Take the request out and emit its result. */
    method Report(identifier: Id, result: Result)
      requires identifier in requests && result.requestId == identifier
      requires Accounted(reported, requests.Keys, finished, results)
      modifies this`requests, this`finished, this`results, this`reported
      ensures Accounted(reported, requests.Keys, finished, results)
      ensures requests == old(requests) - {identifier} && finished == old(finished) + multiset{identifier}
      ensures results == old(results)[identifier := result] && reported == old(reported) + [result]
    {
      hide Accounted;
      OneMoreAccounted(reported, requests.Keys, finished, results, result);
      assert (requests - {identifier}).Keys == requests.Keys - {identifier};
      requests := requests - {identifier};
      finished := finished + multiset{identifier};
      results := results[identifier := result];
      reported := reported + [result];
    }

    /** A removal must still affect what it affected at begin; any other target must still exist. */
    method TopologyFailure(request: Request) returns (failure: string)
      requires Wired()
      ensures failure == TopologyError(drives.items, volumes.items, request)
    {
      failure := "";
      if request.operation.Removal() {
        var scope := RemovalScopeOf(request.targetId, request.operation.PowerOff?);
        if scope != request.scope {
          failure := StorageError("ScopeChanged");
        }
      } else {
        var volume := volumes.FindItem(request.targetId);
        if volume.None? {
          failure := StorageError("Disappeared");
        }
      }
    }

    /** Check the topology again, then issue the next command or finish with an error. */
    method Advance(identifier: Id, step: Id) returns (command: Option<Command>)
      requires Wired()
      modifies this
      ensures Wired() && Move(View(), command) == ControllerSpec.Advance(old(View()), identifier, step)
      ensures old(reported) <= reported
    {
      hide TopologyError, RemovalError, RecordModel.Find, Accounted;
      command := None;
      if identifier !in requests {
        return;
      }
      var request := requests[identifier];
      var failure := TopologyFailure(request);
      if failure != "" {
        Finish(identifier, failure, "");
        return;
      }
      minted := minted + {step};
      if request.unmounts != [] {
        var volume := volumes.FindItem(request.unmounts[0]);
        if volume.None? || !volume.value.canUnmount {
          Finish(identifier, StorageError("Disappeared"), "");
          return;
        }
        command := Some(Command(step, Unmount, request.unmounts[0]));
        Send(identifier, request.(stepId := step, unmounts := request.unmounts[1..]), command.value);
      } else {
        failure := RemovalFailure(request);
        if failure != "" {
          Finish(identifier, failure, "");
          return;
        }
        command := Some(Command(step, request.operation, request.targetId));
        Send(identifier, request.(stepId := step, finalStep := true), command.value);
      }
    }

    /** Remember the step; the caller hands the command to the backend. */
    method Send(identifier: Id, request: Request, command: Command)
      requires Wired() && identifier in requests
      modifies this
      ensures Wired() && View() == ControllerSpec.Send(old(View()), identifier, request, command).state
      ensures reported == old(reported)
    {
      hide Accounted;
      assert requests[identifier := request].Keys == requests.Keys;
      requests := requests[identifier := request];
      traces := traces[identifier := traces[identifier].(sent := traces[identifier].sent + [command])];
    }

    /** The last look before a removal: nothing in scope mounted, and the drive still capable. */
    method RemovalFailure(request: Request) returns (failure: string)
      requires Wired()
      ensures failure == RemovalError(drives.items, volumes.items, request)
    {
      failure := "";
      if request.operation.Removal() {
        var mounted := MountedVolumes(request.scope);
        if mounted != [] {
          return StorageError("Busy");
        }
        var drive := drives.FindItem(request.targetId);
        if drive.None? || !Capable(drive.value, request.operation) {
          return StorageError("NotSupported");
        }
      }
    }

    /** The callback that begin queued. */
    method OnQueued(identifier: Id, failure: string, step: Id) returns (command: Option<Command>)
      requires Valid() && identifier in queued && queued[identifier] == failure && step != "" && step !in minted
      modifies this
      ensures Valid() && Move(View(), command) == ControllerSpec.Dequeue(old(View()), identifier, step)
      ensures old(reported) <= reported
    {
      hide CI.Invariant, ControllerSpec.Advance, Accounted;
      ghost var before := View();
      CI.DequeueKeeps(before, identifier, step);
      queued := queued - {identifier};
      command := None;
      if identifier in requests {
        if failure != "" {
          Finish(identifier, StorageError(failure), "");
        } else {
          command := Advance(identifier, step);
        }
      }
    }

    /** Look for the request that waits for this step. */
    method RequestAwaiting(stepId: Id) returns (identifier: Option<Id>)
      ensures identifier.Some? ==> Awaits(requests, identifier.value, stepId)
      ensures identifier.None? ==> forall id :: !Awaits(requests, id, stepId)
    {
      identifier := None;
      var keys := requests.Keys;
      while keys != {}
        invariant keys <= requests.Keys
        invariant forall id :: id in requests && id !in keys ==> requests[id].stepId != stepId
        decreases |keys|
      {
        var id :| id in keys;
        if requests[id].stepId == stepId {
          return Some(id);
        }
        keys := keys - {id};
      }
    }

    /** The backend's operationFinished signal. */
    method OnOperationFinished(result: Result, step: Id) returns (command: Option<Command>)
      requires Valid() && result.requestId != "" && step != "" && step !in minted
      modifies this
      ensures Valid() && Move(View(), command) == Settle(old(View()), result, step)
      ensures old(reported) <= reported
    {
      hide CI.Identifiers, CI.Scopes, CI.Conserved, CI.Traced, CI.Lists, ControllerSpec.Advance, ControllerSpec.Finish,
           Accounted, RecordModel.IdsOf;
      ghost var before := View();
      CI.SettleKeeps(before, result, step);
      command := None;
      var found := RequestAwaiting(result.requestId);
      if found.None? {
        return;
      }
      var identifier := found.value;
      CI.SettleFindsTheRequest(before, identifier, result, step);
      var request := requests[identifier];
      if !result.Succeeded() {
        Finish(identifier, result.errorName, "");
        return;
      }
      traces := traces[identifier := traces[identifier].(acked := traces[identifier].acked + 1)];
      assert View() == Acknowledged(before, identifier);
      if request.finalStep {
        Finish(identifier, "", result.mountPath);
      } else {
        assert requests[identifier := request.(stepId := "")].Keys == requests.Keys;
        requests := requests[identifier := request.(stepId := "")];
        assert View() == StepCleared(Acknowledged(before, identifier), identifier);
        command := Advance(identifier, step);
      }
    }

    /** The backend's snapshotChanged signal. */
    method OnSnapshot(newDrives: seq<Drive>, newVolumes: seq<Volume>, nowAvailable: bool)
      requires Valid()
      modifies this, drives, volumes
      ensures Valid() && View() == TakeSnapshot(old(View()), newDrives, newVolumes, nowAvailable)
      ensures old(reported) <= reported
    {
      hide CI.Invariant, RecordModel.Reconciled, Accounted;
      ghost var before := View();
      CI.TakeSnapshotKeeps(before, newDrives, newVolumes, nowAvailable);
      if nowAvailable {
        var driveRows := drives.Apply(newDrives);
        var volumeRows := volumes.Apply(newVolumes);
      } else {
        var driveRows := drives.Apply([]);
        var volumeRows := volumes.Apply([]);
      }
      available := nowAvailable;
      if !available {
        FinishAll(StorageError("Unavailable"));
      }
    }

    method FinishAll(errorName: string)
      requires Wired()
      modifies this
      ensures Wired() && View() == ControllerSpec.FinishAll(old(View()), errorName)
      ensures old(reported) <= reported
    {
      hide ControllerSpec.Finish, ControllerSpec.FinishAll, Accounted;
      ghost var before := View();
      NoneFinished(before, errorName);
      var keys := requests.Keys;
      while keys != {}
        invariant Wired() && keys == requests.Keys && old(reported) <= reported
        invariant requests.Keys <= before.requests.Keys
        invariant forall id :: id in requests ==> requests[id] == before.requests[id]
        invariant View() == PartlyFinished(before, requests, errorName)
        decreases |keys|
      {
        var id :| id in keys;
        OneMoreFinished(before, requests, id, errorName);
        Finish(id, errorName, "");
        keys := keys - {id};
      }
      AllFinished(before, requests, errorName);
    }
  }

  /** All that begin changes, as one record update. */
  lemma BeginRegisters(c: ControllerSpec.Controller, id: Id, operation: Operation, targetId: Id, confirmed: seq<Id>)
    ensures var scope, failure := ScopeFor(c, operation, targetId), Refusal(c, operation, targetId, confirmed);
            var unmounts := UnmountsFor(c, operation, scope);
            var reserved := if failure == "" then scope else [];
            ControllerSpec.Begin(c, id, operation, targetId, confirmed) ==
            c.(requests := c.requests[id := Request(operation, targetId, reserved, unmounts, "", false)],
               queued := c.queued[id := failure], minted := c.minted + {id},
               traces := c.traces[id := Trace(PlanOf(unmounts, operation, targetId), scope, confirmed, [], 0)])
  {}

  /** A request about to begin was never reported. */
  lemma NewRequestIsUnreported(c: ControllerSpec.Controller, id: Id)
    requires CI.Invariant(c) && id !in c.minted
    ensures id !in c.finished
  {
    hide CI.Scopes, CI.Traced, CI.Lists;
  }

  /** The state while FinishAll is under way and `left` are the requests still pending. */
  ghost function PartlyFinished(c: ControllerSpec.Controller, left: map<Id, Request>, errorName: string)
    : (r: ControllerSpec.Controller)
    ensures r.requests == left
  {
    c.(requests := left, finished := c.finished + multiset(c.requests.Keys - left.Keys),
       results := c.results + Reports(c.requests, left.Keys, errorName))
  }

  ghost function Reports(requests: map<Id, Request>, left: set<Id>, errorName: string): map<Id, Result> {
    map id | id in requests && id !in left :: ResultOf(id, requests[id], errorName, "")
  }

  lemma NoneFinished(c: ControllerSpec.Controller, errorName: string)
    ensures PartlyFinished(c, c.requests, errorName) == c
  {
    assert c.requests.Keys - c.requests.Keys == {};
    assert c.results + Reports(c.requests, c.requests.Keys, errorName) == c.results;
  }

  lemma AllFinished(c: ControllerSpec.Controller, left: map<Id, Request>, errorName: string)
    requires left.Keys == {}
    ensures PartlyFinished(c, left, errorName) == ControllerSpec.FinishAll(c, errorName)
  {
    assert left == map[];
    assert c.requests.Keys - left.Keys == c.requests.Keys;
    assert Reports(c.requests, left.Keys, errorName) ==
           map id | id in c.requests :: ResultOf(id, c.requests[id], errorName, "");
  }

  lemma MultisetOfLargerSet(s: set<Id>, x: Id)
    requires x !in s
    ensures multiset(s + {x}) == multiset(s) + multiset{x}
  {
  }

  lemma OneMoreReport(requests: map<Id, Request>, left: set<Id>, id: Id, errorName: string)
    requires id in requests && id in left
    ensures Reports(requests, left - {id}, errorName) ==
            Reports(requests, left, errorName)[id := ResultOf(id, requests[id], errorName, "")]
  {
  }

  lemma OverrideOfSum(m: map<Id, Result>, r: map<Id, Result>, id: Id, result: Result)
    ensures (m + r)[id := result] == m + r[id := result]
  {
  }

  lemma OneFewerLeft(all: set<Id>, left: set<Id>, id: Id)
    requires id in all && id in left
    ensures all - (left - {id}) == (all - left) + {id}
  {
  }

  lemma KeysWithout(left: map<Id, Request>, id: Id)
    ensures (left - {id}).Keys == left.Keys - {id}
  {
  }

  lemma OneMoreFinished(c: ControllerSpec.Controller, left: map<Id, Request>, id: Id, errorName: string)
    requires id in left && left.Keys <= c.requests.Keys && left[id] == c.requests[id]
    ensures ControllerSpec.Finish(PartlyFinished(c, left, errorName), id, errorName, "") ==
            PartlyFinished(c, left - {id}, errorName)
  {
    hide Reports, ResultOf;
    KeysWithout(left, id);
    OneFewerLeft(c.requests.Keys, left.Keys, id);
    MultisetOfLargerSet(c.requests.Keys - left.Keys, id);
    OneMoreReport(c.requests, left.Keys, id, errorName);
    OverrideOfSum(c.results, Reports(c.requests, left.Keys, errorName), id, ResultOf(id, left[id], errorName, ""));
  }
}
