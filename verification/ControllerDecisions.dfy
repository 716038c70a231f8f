/**
 What StorageController decides, in terms of the drives and volumes it knows and of nothing else: what an operation
 affects, when it is refused and why, which command comes next, and what is reported.
 */
module ControllerDecisions {
  import opened ControllerInvariant
  import opened ControllerSpec
  import opened Prelude
  import opened StorageTypes
  import RecordModel

  // ---------------------------------------------------------------- the terms

  /** `other` goes away with `drive`: the same drive, or for power-off one with the same non-empty sibling ID. */
  predicate GoesWith(drive: Drive, other: Drive, operation: Operation) {
    other.id == drive.id || (operation == PowerOff && drive.siblingId != "" && other.siblingId == drive.siblingId)
  }

  /** What the operation affects: drives that go away and the volumes on them, or a volume and its drive. */
  ghost predicate Affects(drives: seq<Drive>, volumes: seq<Volume>, operation: Operation, targetId: Id, x: Id) {
    if operation in {Eject, PowerOff} then
      exists drive, other :: drive in drives && drive.id == targetId && other in drives && GoesWith(drive, other, operation)
                             && (x == other.id || exists v :: v in volumes && v.driveId == other.id && x == v.id)
    else x == targetId || (x != "" && exists v :: v in volumes && v.id == targetId && v.driveId == x)
  }

  ghost predicate Reserved(c: Controller, x: Id) {
    exists r :: r in c.requests && x in c.requests[r].scope
  }

  ghost predicate Known(c: Controller, operation: Operation, targetId: Id) {
    if operation in {Eject, PowerOff} then exists d :: d in c.drives && d.id == targetId
    else exists v :: v in c.volumes && v.id == targetId
  }

  /** The drive or volume with the ID has the capability that the operation needs. */
  ghost predicate CanDo(c: Controller, operation: Operation, targetId: Id) {
    match operation
    case Eject => exists d :: d in c.drives && d.id == targetId && d.canEject
    case PowerOff => exists d :: d in c.drives && d.id == targetId && d.canPowerOff
    case Mount => exists v :: v in c.volumes && v.id == targetId && v.canMount
    case Unmount => exists v :: v in c.volumes && v.id == targetId && v.canUnmount
  }

  // ---------------------------------------------------------------- looking records up

  lemma FindsDrive(c: Controller, id: Id)
    requires Lists(c)
    ensures FindDrive(c.drives, id).None? <==> forall d :: d in c.drives ==> d.id != id
    ensures forall d :: d in c.drives && d.id == id <==> FindDrive(c.drives, id) == Some(d)
  {
    FindsOnly(DriveId(), c.drives, id);
  }

  lemma FindsVolume(c: Controller, id: Id)
    requires Lists(c)
    ensures FindVolume(c.volumes, id).None? <==> forall v :: v in c.volumes ==> v.id != id
    ensures forall v :: v in c.volumes && v.id == id <==> FindVolume(c.volumes, id) == Some(v)
  {
    FindsOnly(VolumeId(), c.volumes, id);
  }

  lemma FindsOnly<T>(idOf: T -> Id, s: seq<T>, id: Id)
    requires Distinct(RecordModel.IdsOf(idOf, s))
    ensures RecordModel.Find(idOf, s, id).None? <==> forall x :: x in s ==> idOf(x) != id
    ensures forall x :: x in s && idOf(x) == id <==> RecordModel.Find(idOf, s, id) == Some(x)
  {
    var ids := RecordModel.IdsOf(idOf, s);
    forall x | x in s && idOf(x) == id ensures RecordModel.Find(idOf, s, id) == Some(x) {
      var i :| 0 <= i < |s| && s[i] == x;
      assert ids[i] == id && ids[i] in ids;
      var y := RecordModel.Find(idOf, s, id).value;
      var j :| 0 <= j < |s| && s[j] == y;
      assert ids[j] == id;
    }
  }

  // ---------------------------------------------------------------- what is affected

  lemma ScopeIsWhatIsAffected(c: Controller, operation: Operation, targetId: Id)
    requires Lists(c)
    ensures forall x :: x in ScopeFor(c, operation, targetId) <==> Affects(c.drives, c.volumes, operation, targetId, x)
  {
    forall x ensures x in ScopeFor(c, operation, targetId) <==> Affects(c.drives, c.volumes, operation, targetId, x) {
      if operation.Removal() {
        RemovalAffects(c, operation, targetId, x);
      } else {
        FindsVolume(c, targetId);
      }
    }
  }

  lemma RemovalAffects(c: Controller, operation: Operation, targetId: Id, x: Id)
    requires Lists(c) && operation.Removal()
    ensures x in RemovalScope(c.drives, c.volumes, targetId, operation.PowerOff?) <==> Affects(c.drives, c.volumes, operation, targetId, x)
  {
    hide RemovalScope;
    RemovalScopeMeaning(c.drives, c.volumes, targetId, operation.PowerOff?, x);
    FindsDrive(c, targetId);
    forall other ensures GoesAway(c.drives, targetId, operation.PowerOff?, other) <==>
                           exists drive, d :: drive in c.drives && drive.id == targetId && d in c.drives && d.id == other && GoesWith(drive, d, operation)
    {
      GoesAwayWith(c, operation, targetId, other);
    }
    hide GoesAway, GoesWith, FindDrive;
  }

  lemma GoesAwayWith(c: Controller, operation: Operation, targetId: Id, other: Id)
    requires Lists(c) && operation.Removal()
    ensures GoesAway(c.drives, targetId, operation.PowerOff?, other) <==>
            exists drive, d :: drive in c.drives && drive.id == targetId && d in c.drives && d.id == other && GoesWith(drive, d, operation)
  {
    hide FindDrive;
    FindsDrive(c, targetId);
  }

  // ---------------------------------------------------------------- begin

  ghost predicate StandsBefore(volumes: seq<Volume>, x: Id, y: Id) {
    exists a, b :: 0 <= a < b < |volumes| && volumes[a].id == x && volumes[b].id == y
  }

  /** Each of `ids` stands in the list, in this order. */
  ghost predicate InListOrder(ids: seq<Id>, volumes: seq<Volume>) {
    forall i, j :: 0 <= i < j < |ids| ==> StandsBefore(volumes, ids[i], ids[j])
  }

  lemma {:induction false} MountedInOrder(volumes: seq<Volume>, scope: seq<Id>)
    ensures InListOrder(MountedIn(volumes, scope), volumes)
  {
    if volumes != [] {
      var n := |volumes| - 1;
      var before, ids := MountedIn(volumes[..n], scope), MountedIn(volumes, scope);
      MountedInOrder(volumes[..n], scope);
      forall i, j | 0 <= i < j < |ids| ensures StandsBefore(volumes, ids[i], ids[j]) {
        if j < |before| {
          assert StandsBefore(volumes[..n], before[i], before[j]);
          var a, b :| 0 <= a < b < n && volumes[..n][a].id == before[i] && volumes[..n][b].id == before[j];
          assert volumes[a].id == ids[i] && volumes[b].id == ids[j];
        } else {
          assert before[i] in before && ids[i] == before[i] && ids[j] == volumes[n].id;
          var v :| v in volumes[..n] && v.id == ids[i];
          var a :| 0 <= a < n && volumes[..n][a] == v;
          assert volumes[a].id == ids[i] && volumes[n].id == ids[j];
        }
      }
    }
  }

  /** The plan: unmount what is affected and mounted, in the order of the list, and then do what was asked for. */
  ghost predicate Plans(c: Controller, plan: seq<Action>, operation: Operation, targetId: Id) {
    && plan != [] && plan[|plan| - 1] == Action(operation, targetId)
    && (forall k :: 0 <= k < |plan| - 1 ==> plan[k].operation == Unmount)
    && (forall x :: Action(Unmount, x) in plan[..|plan| - 1] <==>
          operation in {Eject, PowerOff}
          && exists v :: v in c.volumes && v.id == x && v.mountPoints != [] && Affects(c.drives, c.volumes, operation, targetId, x))
    && InListOrder(Targets(plan[..|plan| - 1]), c.volumes)
  }

  function Targets(plan: seq<Action>): (r: seq<Id>)
    ensures |r| == |plan| && forall i :: 0 <= i < |r| ==> r[i] == plan[i].targetId
  {
    seq(|plan|, i requires 0 <= i < |plan| => plan[i].targetId)
  }

  lemma PlanIsMade(c: Controller, operation: Operation, targetId: Id)
    requires Lists(c)
    ensures Plans(c, PlanOf(UnmountsFor(c, operation, ScopeFor(c, operation, targetId)), operation, targetId), operation, targetId)
  {
    hide Affects, MountedIn, ScopeFor;
    var scope := ScopeFor(c, operation, targetId);
    var unmounts := UnmountsFor(c, operation, scope);
    var plan := PlanOf(unmounts, operation, targetId);
    ScopeIsWhatIsAffected(c, operation, targetId);
    MountedInOrder(c.volumes, scope);
    assert Targets(plan[..|plan| - 1]) == unmounts;
    assert forall x :: Action(Unmount, x) in plan[..|plan| - 1] <==> x in unmounts by {
      forall x | x in unmounts ensures Action(Unmount, x) in plan[..|plan| - 1] {
        var i :| 0 <= i < |unmounts| && unmounts[i] == x;
        assert plan[..|plan| - 1][i] == Action(Unmount, x);
      }
    }
  }

  lemma SortedAlike(a: seq<Id>, b: seq<Id>)
    requires SortedIds(b)
    ensures SortIds(a) == b <==> multiset(a) == multiset(b)
  {
    if multiset(a) == multiset(b) { SortedUnique(SortIds(a), b); }
  }

  /** Why a request is refused, or empty: a busy target first, then an unknown one, then what was confirmed, and so on. */
  ghost predicate Refuses(c: Controller, operation: Operation, targetId: Id, confirmed: seq<Id>, scope: seq<Id>, why: string) {
    if exists x :: Affects(c.drives, c.volumes, operation, targetId, x) && Reserved(c, x) then why == "Busy"
    else if !Known(c, operation, targetId) then why == "Disappeared"
    else if operation == PowerOff && multiset(confirmed) != multiset(scope) then why == "ScopeChanged"
    else if !CanDo(c, operation, targetId) then why == "NotSupported"
    else if !c.available then why == "Unavailable"
    else why == ""
  }

  lemma BusyExactly(c: Controller, operation: Operation, targetId: Id)
    requires Lists(c)
    ensures AnyBusy(c.requests, ScopeFor(c, operation, targetId)) <==>
            exists x :: Affects(c.drives, c.volumes, operation, targetId, x) && Reserved(c, x)
  {
    hide Affects, ScopeFor;
    var scope := ScopeFor(c, operation, targetId);
    ScopeIsWhatIsAffected(c, operation, targetId);
    forall x | Affects(c.drives, c.volumes, operation, targetId, x) && Reserved(c, x) ensures AnyBusy(c.requests, scope) {
      var i :| 0 <= i < |scope| && scope[i] == x;
      assert Busy(c.requests, scope[i]);
    }
    forall i | 0 <= i < |scope| && Busy(c.requests, scope[i])
      ensures Affects(c.drives, c.volumes, operation, targetId, scope[i]) && Reserved(c, scope[i]) {}
  }

  lemma RefusesExactly(c: Controller, operation: Operation, targetId: Id, confirmed: seq<Id>)
    requires Lists(c)
    ensures Refuses(c, operation, targetId, confirmed, ScopeFor(c, operation, targetId), Refusal(c, operation, targetId, confirmed))
  {
    hide Affects, Reserved, AnyBusy, RemovalScope, FindDrive, FindVolume, SortIds;
    BusyExactly(c, operation, targetId);
    FindsDrive(c, targetId);
    FindsVolume(c, targetId);
    if operation.PowerOff? { SortedAlike(confirmed, ScopeFor(c, operation, targetId)); }
  }

  /**
   Beginning a request: what it affects is fixed and sorted, its plan is made, the reason to refuse it is queued, and it
   reserves what it affects only when it is not refused. Other requests and what is known stay as they are.
   */
  lemma BeginDecides(c: Controller, id: Id, operation: Operation, targetId: Id, confirmed: seq<Id>)
    requires Lists(c) && id !in c.requests
    ensures var c' := Begin(c, id, operation, targetId, confirmed);
            && id in c'.requests && id in c'.traces && id in c'.queued
            && var r, t := c'.requests[id], c'.traces[id];
            && r.operation == operation && r.targetId == targetId && r.stepId == "" && !r.finalStep
            && (forall x :: x in t.scope <==> Affects(c.drives, c.volumes, operation, targetId, x))
            && (operation in {Eject, PowerOff} ==> SortedIds(t.scope))
            && Plans(c, t.plan, operation, targetId) && t.confirmed == confirmed && t.sent == [] && t.acked == 0
            && Refuses(c, operation, targetId, confirmed, t.scope, c'.queued[id])
            && r.scope == (if c'.queued[id] == "" then t.scope else [])
            && c' == c.(requests := c.requests[id := r], traces := c.traces[id := t], queued := c.queued[id := c'.queued[id]],
                        minted := c.minted + {id})
  {
    hide Affects, Refusal, UnmountsFor, PlanOf, Plans, Refuses;
    ScopeIsWhatIsAffected(c, operation, targetId);
    PlanIsMade(c, operation, targetId);
    RefusesExactly(c, operation, targetId, confirmed);
  }

  // ---------------------------------------------------------------- nothing is affected or unmounted twice

  lemma {:induction false} DistinctCounts(s: seq<Id>)
    ensures Distinct(s) <==> forall x :: multiset(s)[x] <= 1
  {
    if s != [] {
      var n := |s| - 1;
      assert s == s[..n] + [s[n]];
      DistinctCounts(s[..n]);
      assert multiset(s) == multiset(s[..n]) + multiset{s[n]};
      if !Distinct(s[..n]) {
        var x :| multiset(s[..n])[x] > 1;
        assert multiset(s)[x] > 1;
        assert !Distinct(s);
      } else if s[n] in s[..n] {
        assert multiset(s)[s[n]] > 1;
        assert !Distinct(s);
      } else {
        assert Distinct(s);
      }
    }
  }

  lemma DistinctJoined(a: seq<Id>, b: seq<Id>)
    requires Distinct(a) && Distinct(b) && forall x :: x in a ==> x !in b
    ensures Distinct(a + b)
  {
    forall i, j | 0 <= i < j < |a + b| ensures (a + b)[i] != (a + b)[j] {
      assert i < |a| ==> a[i] in a;
      assert j >= |a| ==> b[j - |a|] in b;
    }
  }

  lemma LastIdIsNew<T>(idOf: T -> Id, s: seq<T>)
    requires s != [] && Distinct(RecordModel.IdsOf(idOf, s))
    ensures Distinct(RecordModel.IdsOf(idOf, s[..|s| - 1]))
    ensures forall x :: x in s[..|s| - 1] ==> idOf(x) != idOf(s[|s| - 1])
  {
    var n := |s| - 1;
    var ids := RecordModel.IdsOf(idOf, s);
    assert forall i, j :: 0 <= i < j < n ==> ids[i] != ids[j];
    forall x | x in s[..n] ensures idOf(x) != idOf(s[n]) {
      var i :| 0 <= i < n && s[..n][i] == x;
      assert ids[i] != ids[n];
    }
  }

  lemma {:induction false} SiblingsOnce(drives: seq<Drive>, driveId: Id, siblingId: Id)
    requires Distinct(RecordModel.IdsOf(DriveId(), drives))
    ensures Distinct(SiblingIds(drives, driveId, siblingId)) && driveId !in SiblingIds(drives, driveId, siblingId)
  {
    if drives != [] {
      var n := |drives| - 1;
      LastIdIsNew(DriveId(), drives);
      SiblingsOnce(drives[..n], driveId, siblingId);
      DistinctJoined(SiblingIds(drives[..n], driveId, siblingId), [drives[n].id]);
      hide Distinct;
    }
  }

  lemma {:induction false} VolumesOnce(volumes: seq<Volume>, driveIds: seq<Id>)
    requires Distinct(RecordModel.IdsOf(VolumeId(), volumes))
    ensures Distinct(VolumesOn(volumes, driveIds))
  {
    if volumes != [] {
      var n := |volumes| - 1;
      LastIdIsNew(VolumeId(), volumes);
      VolumesOnce(volumes[..n], driveIds);
      DistinctJoined(VolumesOn(volumes[..n], driveIds), [volumes[n].id]);
      hide Distinct;
    }
  }

  lemma {:induction false} MountedOnce(volumes: seq<Volume>, scope: seq<Id>)
    requires Distinct(RecordModel.IdsOf(VolumeId(), volumes))
    ensures Distinct(MountedIn(volumes, scope))
  {
    if volumes != [] {
      var n := |volumes| - 1;
      LastIdIsNew(VolumeId(), volumes);
      MountedOnce(volumes[..n], scope);
      DistinctJoined(MountedIn(volumes[..n], scope), [volumes[n].id]);
      hide Distinct;
    }
  }

  /** With drives and volumes under different IDs, each affected ID is listed once: so the sorted list is the only one. */
  lemma ScopeListsEachOnce(c: Controller, operation: Operation, targetId: Id)
    requires Lists(c) && operation in {Eject, PowerOff}
    requires forall d, v :: d in c.drives && v in c.volumes ==> d.id != v.id
    ensures Distinct(ScopeFor(c, operation, targetId)) && Distinct(UnmountsFor(c, operation, ScopeFor(c, operation, targetId)))
  {
    hide Distinct, SiblingIds, VolumesOn, MountedIn;
    MountedOnce(c.volumes, ScopeFor(c, operation, targetId));
    match FindDrive(c.drives, targetId) {
      case None => NoneTwice();
      case Some(drive) => AffectedOnce(c, drive, operation.PowerOff?);
    }
  }

  lemma NoneTwice()
    ensures Distinct<Id>([])
  {}

  lemma AffectedOnce(c: Controller, drive: Drive, powerOff: bool)
    requires Lists(c) && drive in c.drives && forall d, v :: d in c.drives && v in c.volumes ==> d.id != v.id
    ensures var affected := AffectedDrives(c.drives, drive, powerOff); Distinct(SortIds(affected + VolumesOn(c.volumes, affected)))
  {
    var affected := AffectedDrives(c.drives, drive, powerOff);
    var on := VolumesOn(c.volumes, affected);
    SiblingsOnce(c.drives, drive.id, drive.siblingId);
    VolumesOnce(c.volumes, affected);
    DrivesOnly(c.drives, drive, powerOff);
    DistinctJoined([drive.id], affected[1..]);
    assert affected == [drive.id] + affected[1..];
    hide Distinct, SiblingIds, AffectedDrives;
    forall x | x in affected ensures x !in on {}
    DistinctJoined(affected, on);
    DistinctCounts(affected + on);
    DistinctCounts(SortIds(affected + on));
  }

  lemma DrivesOnly(drives: seq<Drive>, drive: Drive, powerOff: bool)
    requires drive in drives
    ensures forall x :: x in AffectedDrives(drives, drive, powerOff) ==> exists d :: d in drives && d.id == x
  {}

  // ---------------------------------------------------------------- advance

  /** Request `id` is over: it was taken out, and reported once with this error and mount path. */
  ghost predicate Reports(c: Controller, id: Id, errorName: string, mountPath: string, c': Controller)
    requires id in c.requests
  {
    && c'.requests == c.requests - {id} && c'.finished == c.finished + multiset{id}
    && c'.results == c.results[id := Result(id, c.requests[id].targetId, c.requests[id].operation, mountPath, errorName)]
    && c'.traces == c.traces && c'.queued == c.queued
    && c'.drives == c.drives && c'.volumes == c.volumes && c'.available == c.available
  }

  /** The command is handed over under the new step, and recorded; `left` are the unmounts still to do. */
  ghost predicate Sends(c: Controller, id: Id, step: Id, operation: Operation, targetId: Id, left: seq<Id>, finalStep: bool, m: Move)
    requires id in c.requests && id in c.traces
  {
    var command := Command(step, operation, targetId);
    && m.command == Some(command)
    && m.state == c.(requests := c.requests[id := c.requests[id].(stepId := step, unmounts := left, finalStep := finalStep)],
                     traces := c.traces[id := c.traces[id].(sent := c.traces[id].sent + [command])],
                     minted := c.minted + {step})
  }

  ghost predicate Gives(c: Controller, id: Id, errorName: string, m: Move)
    requires id in c.requests
  {
    m.command == None && Reports(c, id, "org.holonight.Storage." + errorName, "", m.state)
  }

  /** What the next step of a request is, from what is known now. */
  ghost predicate AdvancesRight(c: Controller, id: Id, step: Id, m: Move)
    requires id in c.requests && id in c.traces
  {
    var r := c.requests[id];
    var removal := r.operation in {Eject, PowerOff};
    if removal && RemovalScope(c.drives, c.volumes, r.targetId, r.operation == PowerOff) != r.scope then Gives(c, id, "ScopeChanged", m)
    else if !removal && !Known(c, r.operation, r.targetId) then Gives(c, id, "Disappeared", m)
    else if r.unmounts != [] then
      if exists v :: v in c.volumes && v.id == r.unmounts[0] && v.canUnmount
      then Sends(c, id, step, Unmount, r.unmounts[0], r.unmounts[1..], r.finalStep, m)
      else Gives(c, id, "Disappeared", m)
    else if removal && (exists v :: v in c.volumes && v.id in r.scope && v.mountPoints != []) then Gives(c, id, "Busy", m)
    else if removal && !CanDo(c, r.operation, r.targetId) then Gives(c, id, "NotSupported", m)
    else Sends(c, id, step, r.operation, r.targetId, [], true, m)
  }

  lemma TopologyErrorExactly(c: Controller, r: Request)
    requires Lists(c)
    ensures TopologyError(c.drives, c.volumes, r) ==
            if r.operation in {Eject, PowerOff} then
              if RemovalScope(c.drives, c.volumes, r.targetId, r.operation == PowerOff) != r.scope
              then "org.holonight.Storage." + "ScopeChanged" else ""
            else if !Known(c, r.operation, r.targetId) then "org.holonight.Storage." + "Disappeared" else ""
  {
    hide RemovalScope, FindVolume;
    FindsVolume(c, r.targetId);
  }

  lemma RemovalErrorExactly(c: Controller, r: Request)
    requires Lists(c)
    ensures RemovalError(c.drives, c.volumes, r) ==
            if r.operation !in {Eject, PowerOff} then ""
            else if exists v :: v in c.volumes && v.id in r.scope && v.mountPoints != [] then "org.holonight.Storage." + "Busy"
            else if !CanDo(c, r.operation, r.targetId) then "org.holonight.Storage." + "NotSupported" else ""
  {
    hide FindDrive, MountedIn;
    FindsDrive(c, r.targetId);
    MountedExactly(c.volumes, r.scope);
  }

  lemma AdvanceDecides(c: Controller, id: Id, step: Id)
    requires Lists(c) && id in c.requests && id in c.traces
    ensures AdvancesRight(c, id, step, Advance(c, id, step))
  {
    hide TopologyError, RemovalError, RemovalScope, FindVolume, Known, CanDo;
    var r := c.requests[id];
    TopologyErrorExactly(c, r);
    RemovalErrorExactly(c, r);
    if r.unmounts != [] { FindsVolume(c, r.unmounts[0]); }
  }

  lemma MountedExactly(volumes: seq<Volume>, scope: seq<Id>)
    ensures MountedIn(volumes, scope) == [] <==> !exists v :: v in volumes && v.id in scope && v.mountPoints != []
  {
    if MountedIn(volumes, scope) != [] {
      assert MountedIn(volumes, scope)[0] in MountedIn(volumes, scope);
    }
    forall v | v in volumes && v.id in scope && v.mountPoints != [] ensures MountedIn(volumes, scope) != [] {
      assert v.id in MountedIn(volumes, scope);
    }
  }

  // ---------------------------------------------------------------- callbacks, results and snapshots

  /** The queued callback reports the refusal, or takes the first step. */
  lemma DequeueDecides(c: Controller, id: Id, step: Id)
    requires Lists(c) && id in c.queued && (id in c.requests ==> id in c.traces)
    ensures var m, c' := Dequeue(c, id, step), c.(queued := c.queued - {id});
            if id !in c.requests then m == Move(c', None)
            else if c.queued[id] != "" then Gives(c', id, c.queued[id], m)
            else AdvancesRight(c', id, step, m)
  {
    hide Advance, AdvancesRight;
    if id in c.requests {
      AdvanceDecides(c.(queued := c.queued - {id}), id, step);
    }
  }

  /** A result is for the one request that awaits its step: an error ends it, so does the last success, others go on. */
  lemma SettleDecides(c: Controller, id: Id, result: Result, step: Id)
    requires Invariant(c) && id in c.requests && c.requests[id].stepId == result.requestId && result.requestId != ""
    ensures var m := Settle(c, result, step);
            var acked := c.(traces := c.traces[id := c.traces[id].(acked := c.traces[id].acked + 1)]);
            if result.errorName != "" then m.command == None && Reports(c, id, result.errorName, "", m.state)
            else if c.requests[id].finalStep then m.command == None && Reports(acked, id, "", result.mountPath, m.state)
            else AdvancesRight(acked.(requests := c.requests[id := c.requests[id].(stepId := "")]), id, step, m)
  {
    hide Advance, AdvancesRight, Scopes, Conserved, Traced;
    SettleFindsTheRequest(c, id, result, step);
    AdvanceDecides(StepCleared(Acknowledged(c, id), id), id, step);
  }

  lemma NobodyAwaits(c: Controller, result: Result, step: Id)
    requires c.requests.Keys <= c.traces.Keys && forall id :: id in c.requests ==> c.requests[id].stepId != result.requestId
    ensures Settle(c, result, step) == Move(c, None)
  {}

  /** Without the service nothing is known, and every request is over: reported once, as Unavailable. */
  lemma WithdrawalDecides(c: Controller, drives: seq<Drive>, volumes: seq<Volume>)
    ensures var c' := TakeSnapshot(c, drives, volumes, false);
            && c' == c.(drives := [], volumes := [], available := false, requests := map[],
                        finished := c.finished + multiset(c.requests.Keys), results := c'.results)
            && c'.results.Keys == c.results.Keys + c.requests.Keys
            && (forall id :: id in c.results && id !in c.requests ==> c'.results[id] == c.results[id])
            && (forall id :: id in c.requests ==>
                  c'.results[id] == Result(id, c.requests[id].targetId, c.requests[id].operation, "", "org.holonight.Storage." + "Unavailable"))
  {
    hide RecordModel.Reconciled, FinishAll;
    NothingSurvives(DriveId(), c.drives);
    NothingSurvives(VolumeId(), c.volumes);
    FinishAllDecides(c.(drives := [], volumes := [], available := false), "Unavailable");
  }

  lemma FinishAllDecides(c: Controller, name: string)
    ensures var c' := FinishAll(c, StorageError(name));
            && c' == c.(requests := map[], finished := c.finished + multiset(c.requests.Keys), results := c'.results)
            && c'.results.Keys == c.results.Keys + c.requests.Keys
            && (forall id :: id in c.results && id !in c.requests ==> c'.results[id] == c.results[id])
            && (forall id :: id in c.requests ==>
                  c'.results[id] == Result(id, c.requests[id].targetId, c.requests[id].operation, "", "org.holonight.Storage." + name))
  {
    var added := map id | id in c.requests :: Result(id, c.requests[id].targetId, c.requests[id].operation, "", "org.holonight.Storage." + name);
    assert FinishAll(c, StorageError(name)).results == c.results + added;
    assert added.Keys == c.requests.Keys;
    hide FinishAll;
    Joined(c.results, added);
  }

  lemma Joined<K, V>(a: map<K, V>, b: map<K, V>)
    ensures (a + b).Keys == a.Keys + b.Keys
    ensures forall k :: k in a && k !in b ==> (a + b)[k] == a[k]
    ensures forall k :: k in b ==> (a + b)[k] == b[k]
  {}

  lemma NothingSurvives<T>(idOf: T -> Id, s: seq<T>)
    ensures RecordModel.Reconciled(idOf, s, []) == []
  {
    NobodySurvives(idOf, s);
  }

  lemma {:induction false} NobodySurvives<T>(idOf: T -> Id, s: seq<T>)
    ensures RecordModel.Survivors(idOf, s, []) == []
  {
    if s != [] { NobodySurvives(idOf, s[1..]); }
  }

  /** With the service, what is known is what the snapshot says, and no request is touched. */
  lemma SnapshotDecides(c: Controller, drives: seq<Drive>, volumes: seq<Volume>)
    requires Lists(c) && Distinct(RecordModel.IdsOf(DriveId(), drives)) && Distinct(RecordModel.IdsOf(VolumeId(), volumes))
    ensures var c' := TakeSnapshot(c, drives, volumes, true);
            && c' == c.(drives := c'.drives, volumes := c'.volumes, available := true)
            && (forall d :: d in c'.drives <==> d in drives) && (forall v :: v in c'.volumes <==> v in volumes)
  {
    RecordModel.ReconciledMembers(DriveId(), c.drives, drives);
    RecordModel.ReconciledMembers(VolumeId(), c.volumes, volumes);
    hide RecordModel.Reconciled;
  }

  /** At first the service is unavailable, nothing is known and nothing asked for. */
  lemma AtFirst()
    ensures var c := Initial();
            && !c.available && c.drives == [] && c.volumes == [] && c.requests == map[] && c.queued == map[]
            && c.finished == multiset{} && c.results == map[]
  {}
}
