/**
 What StorageController's transactions do, as functions on its state, and what every such step keeps.

 History: `minted` holds every identifier drawn so far, `traces` one record per begun request, `finished` and
 `results` what was reported through operationFinished.
 */
module ControllerSpec {
  import opened Prelude
  import opened StorageTypes
  import RecordModel

  datatype Request = Request(operation: Operation, targetId: Id, scope: seq<Id>, unmounts: seq<Id>,
                             stepId: Id, finalStep: bool)

  /** A call of StorageBackend::execute. */
  datatype Command = Command(stepId: Id, operation: Operation, targetId: Id)

  datatype Action = Action(operation: Operation, targetId: Id)

  /** `plan` and `scope` are fixed at begin; `sent` are the commands issued so far, `acked` of them succeeded. */
  datatype Trace = Trace(plan: seq<Action>, scope: seq<Id>, confirmed: seq<Id>, sent: seq<Command>, acked: nat)

  datatype Controller = Controller(
    available: bool, requests: map<Id, Request>, drives: seq<Drive>, volumes: seq<Volume>,
    queued: map<Id, string>, minted: set<Id>, traces: map<Id, Trace>, finished: multiset<Id>, results: map<Id, Result>)

  /** A step's new state, and the command it hands to the backend if any. */
  datatype Move = Move(state: Controller, command: Option<Command>)

  function Initial(): Controller {
    Controller(false, map[], [], [], map[], {}, map[], multiset{}, map[])
  }

  // ---------------------------------------------------------------- topology

  function DriveId(): Drive -> Id { (d: Drive) => d.id }
  function VolumeId(): Volume -> Id { (v: Volume) => v.id }

  function FindDrive(drives: seq<Drive>, id: Id): Option<Drive> { RecordModel.Find(DriveId(), drives, id) }
  function FindVolume(volumes: seq<Volume>, id: Id): Option<Volume> { RecordModel.Find(VolumeId(), volumes, id) }

  function SiblingIds(drives: seq<Drive>, driveId: Id, siblingId: Id): (r: seq<Id>)
    ensures forall x :: x in r <==> exists d :: d in drives && d.id == x && d.id != driveId && d.siblingId == siblingId
  {
    if drives == [] then []
    else
      var last := drives[|drives| - 1];
      assert drives == drives[..|drives| - 1] + [last];
      SiblingIds(drives[..|drives| - 1], driveId, siblingId)
      + (if last.id != driveId && last.siblingId == siblingId then [last.id] else [])
  }

  function VolumesOn(volumes: seq<Volume>, driveIds: seq<Id>): (r: seq<Id>)
    ensures forall x :: x in r <==> exists v :: v in volumes && v.id == x && v.driveId in driveIds
  {
    if volumes == [] then []
    else
      var last := volumes[|volumes| - 1];
      assert volumes == volumes[..|volumes| - 1] + [last];
      VolumesOn(volumes[..|volumes| - 1], driveIds) + (if last.driveId in driveIds then [last.id] else [])
  }

  /** The in-scope volumes that are mounted, in model order. */
  function MountedIn(volumes: seq<Volume>, scope: seq<Id>): (r: seq<Id>)
    ensures forall x :: x in r <==> exists v :: v in volumes && v.id == x && v.id in scope && v.mountPoints != []
  {
    if volumes == [] then []
    else
      var last := volumes[|volumes| - 1];
      assert volumes == volumes[..|volumes| - 1] + [last];
      MountedIn(volumes[..|volumes| - 1], scope)
      + (if last.id in scope && last.mountPoints != [] then [last.id] else [])
  }

  function AffectedDrives(drives: seq<Drive>, drive: Drive, powerOff: bool): seq<Id> {
    [drive.id] + (if powerOff && drive.siblingId != "" then SiblingIds(drives, drive.id, drive.siblingId) else [])
  }

  function RemovalScope(drives: seq<Drive>, volumes: seq<Volume>, driveId: Id, powerOff: bool): (r: seq<Id>)
    ensures SortedIds(r)
  {
    match FindDrive(drives, driveId)
    case None => []
    case Some(drive) =>
      var affected := AffectedDrives(drives, drive, powerOff);
      SortIds(affected + VolumesOn(volumes, affected))
  }

  /** `other` goes away together with `driveId`: it is that drive, or for power-off shares its non-empty sibling ID. */
  ghost predicate GoesAway(drives: seq<Drive>, driveId: Id, powerOff: bool, other: Id) {
    && FindDrive(drives, driveId).Some?
    && var drive := FindDrive(drives, driveId).value;
       (other == driveId
        || (powerOff && drive.siblingId != "" && exists d :: d in drives && d.id == other && d.siblingId == drive.siblingId))
  }

  lemma RemovalScopeMeaning(drives: seq<Drive>, volumes: seq<Volume>, driveId: Id, powerOff: bool, x: Id)
    ensures x in RemovalScope(drives, volumes, driveId, powerOff) <==>
            || GoesAway(drives, driveId, powerOff, x)
            || exists v :: v in volumes && v.id == x && GoesAway(drives, driveId, powerOff, v.driveId)
  {
    if FindDrive(drives, driveId).Some? {
      var drive := FindDrive(drives, driveId).value;
      var affected := AffectedDrives(drives, drive, powerOff);
      assert forall y :: y in affected <==> GoesAway(drives, driveId, powerOff, y);
      SortIdsMembers(affected + VolumesOn(volumes, affected), x);
    }
  }

  predicate Busy(requests: map<Id, Request>, target: Id) {
    exists id :: id in requests && target in requests[id].scope
  }

  function Capable(drive: Drive, operation: Operation): bool {
    if operation.Eject? then drive.canEject else drive.canPowerOff
  }

  // ---------------------------------------------------------------- transitions

  function ScopeFor(c: Controller, operation: Operation, targetId: Id): seq<Id> {
    if operation.Removal() then RemovalScope(c.drives, c.volumes, targetId, operation.PowerOff?)
    else
      match FindVolume(c.volumes, targetId)
      case None => [targetId]
      case Some(volume) => [targetId] + if volume.driveId != "" then [volume.driveId] else []
  }

  /** Why the operation itself is refused, or empty; later checks override earlier ones. */
  function Objection(c: Controller, operation: Operation, targetId: Id, confirmed: seq<Id>): string {
    var unavailable := if c.available then "" else "Unavailable";
    if operation.Removal() then
      match FindDrive(c.drives, targetId)
      case None => "Disappeared"
      case Some(drive) =>
        if operation.PowerOff? && SortIds(confirmed) != ScopeFor(c, operation, targetId) then "ScopeChanged"
        else if Capable(drive, operation) then unavailable else "NotSupported"
    else
      match FindVolume(c.volumes, targetId)
      case None => "Disappeared"
      case Some(volume) =>
        if (if operation.Mount? then volume.canMount else volume.canUnmount) then unavailable else "NotSupported"
  }

  predicate AnyBusy(requests: map<Id, Request>, scope: seq<Id>) {
    exists i :: 0 <= i < |scope| && Busy(requests, scope[i])
  }

  /** The name of the reason to refuse, or empty: a target in use overrides every other reason. */
  function Refusal(c: Controller, operation: Operation, targetId: Id, confirmed: seq<Id>): string {
    if AnyBusy(c.requests, ScopeFor(c, operation, targetId)) then "Busy"
    else Objection(c, operation, targetId, confirmed)
  }

  function UnmountsFor(c: Controller, operation: Operation, scope: seq<Id>): seq<Id> {
    if operation.Removal() then MountedIn(c.volumes, scope) else []
  }

  function PlanOf(unmounts: seq<Id>, operation: Operation, targetId: Id): (r: seq<Action>)
    ensures |r| == |unmounts| + 1
  {
    seq(|unmounts|, i requires 0 <= i < |unmounts| => Action(Unmount, unmounts[i])) + [Action(operation, targetId)]
  }

  function Begin(c: Controller, id: Id, operation: Operation, targetId: Id, confirmed: seq<Id>): Controller {
    var scope := ScopeFor(c, operation, targetId);
    var unmounts := UnmountsFor(c, operation, scope);
    var failure := Refusal(c, operation, targetId, confirmed);
    var request := Request(operation, targetId, if failure == "" then scope else [], unmounts, "", false);
    c.(requests := c.requests[id := request], queued := c.queued[id := failure], minted := c.minted + {id},
       traces := c.traces[id := Trace(PlanOf(unmounts, operation, targetId), scope, confirmed, [], 0)])
  }

  function ResultOf(id: Id, request: Request, errorName: string, mountPath: string): Result {
    Result(id, request.targetId, request.operation, mountPath, errorName)
  }

  function Finish(c: Controller, id: Id, errorName: string, mountPath: string): Controller {
    if id !in c.requests then c
    else c.(requests := c.requests - {id}, finished := c.finished + multiset{id},
            results := c.results[id := ResultOf(id, c.requests[id], errorName, mountPath)])
  }

  function FinishAll(c: Controller, errorName: string): Controller {
    c.(requests := map[], finished := c.finished + multiset(c.requests.Keys),
       results := c.results + map id | id in c.requests :: ResultOf(id, c.requests[id], errorName, ""))
  }

  function Send(c: Controller, id: Id, request: Request, command: Command): Move
    requires id in c.traces
  {
    var trace := c.traces[id];
    Move(c.(requests := c.requests[id := request], traces := c.traces[id := trace.(sent := trace.sent + [command])]),
         Some(command))
  }

  /** A removal must still affect what it affected at begin; any other target must still exist. */
  function TopologyError(drives: seq<Drive>, volumes: seq<Volume>, request: Request): string {
    if request.operation.Removal() then
      if RemovalScope(drives, volumes, request.targetId, request.operation.PowerOff?) != request.scope
      then StorageError("ScopeChanged") else ""
    else if FindVolume(volumes, request.targetId).None? then StorageError("Disappeared")
    else ""
  }

  /** Before the last step of a removal nothing in scope may be mounted and the drive must still be capable. */
  function RemovalError(drives: seq<Drive>, volumes: seq<Volume>, request: Request): string {
    if !request.operation.Removal() then ""
    else if MountedIn(volumes, request.scope) != [] then StorageError("Busy")
    else
      match FindDrive(drives, request.targetId)
      case None => StorageError("NotSupported")
      case Some(drive) => if Capable(drive, request.operation) then "" else StorageError("NotSupported")
  }

  /** Issue the next command of request `id` under the fresh step identifier `step`, or finish it with an error. */
  function Advance(c: Controller, id: Id, step: Id): Move
    requires id in c.requests ==> id in c.traces
  {
    if id !in c.requests then Move(c, None)
    else
      var request := c.requests[id];
      if TopologyError(c.drives, c.volumes, request) != "" then Move(Finish(c, id, TopologyError(c.drives, c.volumes, request), ""), None)
      else
        var c' := c.(minted := c.minted + {step});
        if request.unmounts != [] then
          var volume := FindVolume(c.volumes, request.unmounts[0]);
          if volume.None? || !volume.value.canUnmount then Move(Finish(c', id, StorageError("Disappeared"), ""), None)
          else Send(c', id, request.(stepId := step, unmounts := request.unmounts[1..]),
                    Command(step, Unmount, request.unmounts[0]))
        else if RemovalError(c.drives, c.volumes, request) != "" then Move(Finish(c', id, RemovalError(c.drives, c.volumes, request), ""), None)
        else Send(c', id, request.(stepId := step, finalStep := true), Command(step, request.operation, request.targetId))
  }

  function QueueDropped(c: Controller, id: Id): Controller {
    c.(queued := c.queued - {id})
  }

  /** The zero-delay callback queued by begin. */
  function Dequeue(c: Controller, id: Id, step: Id): Move
    requires id in c.queued
    requires id in c.requests ==> id in c.traces
  {
    var c' := QueueDropped(c, id);
    if id !in c.requests then Move(c', None)
    else if c.queued[id] != "" then Move(Finish(c', id, StorageError(c.queued[id]), ""), None)
    else Advance(c', id, step)
  }

  ghost predicate Awaits(requests: map<Id, Request>, id: Id, stepId: Id) {
    id in requests && requests[id].stepId == stepId
  }

  function Acknowledged(c: Controller, id: Id): Controller
    requires id in c.traces
  {
    c.(traces := c.traces[id := c.traces[id].(acked := c.traces[id].acked + 1)])
  }

  function StepCleared(c: Controller, id: Id): Controller
    requires id in c.requests
  {
    c.(requests := c.requests[id := c.requests[id].(stepId := "")])
  }

  /** An error or the last step ends the request; any other success sends the next command. */
  function SettleOne(c: Controller, id: Id, result: Result, step: Id): Move
    requires id in c.requests && forall x :: x in c.requests ==> x in c.traces
  {
    if !result.Succeeded() then Move(Finish(c, id, result.errorName, ""), None)
    else if c.requests[id].finalStep then Move(Finish(Acknowledged(c, id), id, "", result.mountPath), None)
    else Advance(StepCleared(Acknowledged(c, id), id), id, step)
  }

  /** The backend reports on step `result.requestId`; `step` is the identifier the next command would carry. */
  ghost function Settle(c: Controller, result: Result, step: Id): Move
    requires forall id :: id in c.requests ==> id in c.traces
  {
    if id :| Awaits(c.requests, id, result.requestId) then SettleOne(c, id, result, step)
    else Move(c, None)
  }

  function TakeSnapshot(c: Controller, drives: seq<Drive>, volumes: seq<Volume>, available: bool): Controller {
    var c' := c.(drives := RecordModel.Reconciled(DriveId(), c.drives, if available then drives else []),
                 volumes := RecordModel.Reconciled(VolumeId(), c.volumes, if available then volumes else []),
                 available := available);
    if available then c' else FinishAll(c', StorageError("Unavailable"))
  }
}
