/** What callers of StorageController may rely on: which commands are sent, and what later steps can no longer change. */
module ControllerGuarantees {
  import opened Prelude
  import opened StorageTypes
  import opened ControllerSpec
  import opened ControllerInvariant
  import RecordModel

  // ---------------------------------------------------------------- removal is safe

  /** `command` was just issued for a pending request; a removal hits an unmounted, unchanged, capable target. */
  ghost predicate Justified(c: Controller, command: Command) {
    exists id :: Awaits(c.requests, id, command.stepId) && id in c.traces && JustifiedFor(c, id, command)
  }

  ghost predicate JustifiedFor(c: Controller, id: Id, command: Command)
    requires id in c.requests && id in c.traces
  {
    && |c.traces[id].sent| > 0
    && c.traces[id].sent[|c.traces[id].sent| - 1] == command
    && c.traces[id].acked + 1 == |c.traces[id].sent|
    && (command.operation.Removal() ==> SafeRemoval(c, c.traces[id], command))
    && (!command.operation.Removal() ==> PresentVolume(c, c.requests[id].operation, command.targetId))
  }

  /** The volume is there, and if it is to be unmounted for a removal it can be. */
  ghost predicate PresentVolume(c: Controller, operation: Operation, targetId: Id) {
    exists v :: v in c.volumes && v.id == targetId && (operation.Removal() ==> v.canUnmount)
  }

  ghost predicate SafeRemoval(c: Controller, t: Trace, command: Command) {
    && t.scope == RemovalScope(c.drives, c.volumes, command.targetId, command.operation.PowerOff?)
    && (command.operation.PowerOff? ==> t.scope == SortIds(t.confirmed))
    && FindDrive(c.drives, command.targetId).Some?
    && Capable(FindDrive(c.drives, command.targetId).value, command.operation)
    && forall v :: v in c.volumes && GoesAway(c.drives, command.targetId, command.operation.PowerOff?, v.driveId) ==>
         v.mountPoints == []
  }

  lemma NothingMountedGoesAway(c: Controller, driveId: Id, powerOff: bool)
    requires MountedIn(c.volumes, RemovalScope(c.drives, c.volumes, driveId, powerOff)) == []
    ensures forall v :: v in c.volumes && GoesAway(c.drives, driveId, powerOff, v.driveId) ==> v.mountPoints == []
  {
    var scope := RemovalScope(c.drives, c.volumes, driveId, powerOff);
    forall v | v in c.volumes && GoesAway(c.drives, driveId, powerOff, v.driveId) ensures v.mountPoints == [] {
      RemovalScopeMeaning(c.drives, c.volumes, driveId, powerOff, v.id);
      assert v.mountPoints != [] ==> v.id in MountedIn(c.volumes, scope);
    }
  }

  lemma AdvanceIsJustified(c: Controller, id: Id, step: Id)
    requires id in c.requests && id in c.traces && Ready(c.traces[id], c.requests[id])
    ensures Advance(c, id, step).command.Some? ==>
              Justified(Advance(c, id, step).state, Advance(c, id, step).command.value)
  {
    hide RemovalScope, MountedIn, GoesAway, FindDrive, PlanOf;
    var m := Advance(c, id, step);
    if m.command.Some? {
      var request := c.requests[id];
      var command := m.command.value;
      assert m.state.traces[id].sent == c.traces[id].sent + [command];
      if command.operation.Removal() {
        NothingMountedGoesAway(c, request.targetId, request.operation.PowerOff?);
        assert SafeRemoval(m.state, m.state.traces[id], command);
      } else {
        assert PresentVolume(m.state, m.state.requests[id].operation, command.targetId);
      }
      assert Awaits(m.state.requests, id, command.stepId) && JustifiedFor(m.state, id, command);
    }
  }

  lemma DequeueIsJustified(c: Controller, id: Id, step: Id)
    requires Invariant(c) && id in c.queued
    ensures Dequeue(c, id, step).command.Some? ==>
              Justified(Dequeue(c, id, step).state, Dequeue(c, id, step).command.value)
  {
    if id in c.requests && c.queued[id] == "" {
      assert Follows(c.traces[id], c.requests[id], Queued(c, id));
      AdvanceIsJustified(QueueDropped(c, id), id, step);
    }
  }

  lemma SettleIsJustified(c: Controller, result: Result, step: Id)
    requires Invariant(c) && result.requestId != ""
    ensures Settle(c, result, step).command.Some? ==>
              Justified(Settle(c, result, step).state, Settle(c, result, step).command.value)
  {
    hide Scopes, Conserved, Lists, Justified, Advance, Finish;
    if id :| Awaits(c.requests, id, result.requestId) {
      SettleFindsTheRequest(c, id, result, step);
      if result.Succeeded() && !c.requests[id].finalStep {
        assert Follows(c.traces[id], c.requests[id], Queued(c, id));
        AdvanceIsJustified(StepCleared(Acknowledged(c, id), id), id, step);
      }
    }
  }

  // ---------------------------------------------------------------- what later steps cannot change

  ghost predicate Grows(t: Trace, t': Trace) {
    t'.plan == t.plan && t'.scope == t.scope && t'.confirmed == t.confirmed && t.sent <= t'.sent && t.acked <= t'.acked
  }

  /** A step identifier that was drawn and that no request waits for any more. */
  ghost predicate Retired(c: Controller, step: Id) {
    step in c.minted && forall id :: id in c.requests ==> c.requests[id].stepId != step
  }

  ghost predicate RecordsGrow(c: Controller, c': Controller) {
    && (forall id :: id in c.traces ==> id in c'.traces && Grows(c.traces[id], c'.traces[id]))
    && (forall id :: id in c.traces && id !in c.requests ==> id !in c'.requests && c'.traces[id] == c.traces[id])
  }

  ghost predicate ResultsStay(c: Controller, c': Controller) {
    forall id :: id in c.results ==> id in c'.results && c'.results[id] == c.results[id]
  }

  ghost predicate RetiredStay(c: Controller, c': Controller) {
    c.minted <= c'.minted && forall step :: step != "" && Retired(c, step) ==> Retired(c', step)
  }

  /**
   Records only grow; a closed request stays closed, its record and its result frozen; a retired step stays retired.
   */
  ghost predicate Extends(c: Controller, c': Controller) {
    RecordsGrow(c, c') && ResultsStay(c, c') && RetiredStay(c, c')
  }

  lemma ExtendsTransitive(a: Controller, b: Controller, c: Controller)
    requires Extends(a, b) && Extends(b, c)
    ensures Extends(a, c)
  {
  }

  lemma ExtendsItself(c: Controller)
    ensures Extends(c, c)
  {
  }

  lemma BeginRetiresNoStep(c: Controller, id: Id, operation: Operation, targetId: Id, confirmed: seq<Id>)
    ensures RetiredStay(c, Begin(c, id, operation, targetId, confirmed))
  {
    hide Refusal, ScopeFor, UnmountsFor, PlanOf;
    var c' := Begin(c, id, operation, targetId, confirmed);
    forall step | step != "" && Retired(c, step) ensures Retired(c', step) {
      assert c'.requests[id].stepId == "";
    }
  }

  lemma BeginExtends(c: Controller, id: Id, operation: Operation, targetId: Id, confirmed: seq<Id>)
    requires Conserved(c) && id !in c.traces
    ensures Extends(c, Begin(c, id, operation, targetId, confirmed))
  {
    hide Refusal, ScopeFor, UnmountsFor, PlanOf, RetiredStay;
    BeginRetiresNoStep(c, id, operation, targetId, confirmed);
    assert id !in c.requests && id !in c.results;
  }

  lemma FinishExtends(c: Controller, id: Id, errorName: string, mountPath: string)
    requires Conserved(c)
    ensures Extends(c, Finish(c, id, errorName, mountPath))
  {
  }

  lemma MintAndSendExtends(c: Controller, id: Id, request: Request, command: Command)
    requires id in c.traces && id in c.requests && request.stepId == command.stepId && command.stepId !in c.minted
    ensures Extends(c, Send(c.(minted := c.minted + {command.stepId}), id, request, command).state)
  {
    var c' := Send(c.(minted := c.minted + {command.stepId}), id, request, command).state;
    forall step | step != "" && Retired(c, step) ensures Retired(c', step) {}
  }

  lemma MintExtends(c: Controller, step: Id)
    requires Conserved(c) && step !in c.minted
    ensures var c' := c.(minted := c.minted + {step}); Conserved(c') && Extends(c, c')
  {
    assert forall s :: s != step ==> (Retired(c, s) <==> Retired(c.(minted := c.minted + {step}), s));
  }

  lemma AdvanceExtends(c: Controller, id: Id, step: Id)
    requires Conserved(c) && id in c.requests && id in c.traces && step !in c.minted && step != ""
    ensures Extends(c, Advance(c, id, step).state)
  {
    hide Conserved, Extends, TopologyError, RemovalError, FindVolume, Finish, Send;
    var request := c.requests[id];
    FinishExtends(c, id, TopologyError(c.drives, c.volumes, request), "");
    if TopologyError(c.drives, c.volumes, request) == "" {
      var c' := c.(minted := c.minted + {step});
      MintExtends(c, step);
      if request.unmounts != [] {
        var volume := FindVolume(c.volumes, request.unmounts[0]);
        if volume.None? || !volume.value.canUnmount {
          FinishExtends(c', id, StorageError("Disappeared"), "");
          ExtendsTransitive(c, c', Finish(c', id, StorageError("Disappeared"), ""));
        } else {
          MintAndSendExtends(c, id, request.(stepId := step, unmounts := request.unmounts[1..]),
                             Command(step, Unmount, request.unmounts[0]));
        }
      } else if RemovalError(c.drives, c.volumes, request) != "" {
        FinishExtends(c', id, RemovalError(c.drives, c.volumes, request), "");
        ExtendsTransitive(c, c', Finish(c', id, RemovalError(c.drives, c.volumes, request), ""));
      } else {
        MintAndSendExtends(c, id, request.(stepId := step, finalStep := true),
                           Command(step, request.operation, request.targetId));
      }
    }
  }

  lemma DropExtends(c: Controller, id: Id)
    requires Conserved(c)
    ensures Conserved(QueueDropped(c, id)) && Extends(c, QueueDropped(c, id))
  {
    assert forall s :: Retired(c, s) <==> Retired(QueueDropped(c, id), s);
  }

  lemma DequeueExtends(c: Controller, id: Id, step: Id)
    requires Invariant(c) && id in c.queued && step !in c.minted && step != ""
    ensures Extends(c, Dequeue(c, id, step).state)
  {
    hide Scopes, Traced, Lists, Conserved, Extends, Advance, Finish;
    var c' := QueueDropped(c, id);
    DropExtends(c, id);
    if id in c.requests {
      if c.queued[id] != "" {
        FinishExtends(c', id, StorageError(c.queued[id]), "");
        ExtendsTransitive(c, c', Finish(c', id, StorageError(c.queued[id]), ""));
      } else {
        AdvanceExtends(c', id, step);
        ExtendsTransitive(c, c', Advance(c', id, step).state);
      }
    }
  }

  lemma AcknowledgeExtends(c: Controller, id: Id)
    requires id in c.requests && id in c.traces
    ensures Extends(c, Acknowledged(c, id)) && Extends(c, StepCleared(Acknowledged(c, id), id))
  {
    assert forall s :: s != "" && Retired(c, s) ==> Retired(StepCleared(Acknowledged(c, id), id), s);
  }

  lemma AcknowledgeConserves(c: Controller, id: Id)
    requires Conserved(c) && id in c.requests && id in c.traces
    ensures Conserved(Acknowledged(c, id)) && Conserved(StepCleared(Acknowledged(c, id), id))
  {
  }

  lemma SettleExtends(c: Controller, result: Result, step: Id)
    requires Invariant(c) && result.requestId != "" && step !in c.minted && step != ""
    ensures Extends(c, Settle(c, result, step).state)
  {
    hide Scopes, Traced, Lists, Conserved, Extends, Advance, Finish;
    ExtendsItself(c);
    if id :| Awaits(c.requests, id, result.requestId) {
      SettleFindsTheRequest(c, id, result, step);
      AcknowledgeExtends(c, id);
      AcknowledgeConserves(c, id);
      var acked := Acknowledged(c, id);
      if !result.Succeeded() {
        FinishExtends(c, id, result.errorName, "");
      } else if c.requests[id].finalStep {
        FinishExtends(acked, id, "", result.mountPath);
        ExtendsTransitive(c, acked, Finish(acked, id, "", result.mountPath));
      } else {
        var cleared := StepCleared(acked, id);
        AdvanceExtends(cleared, id, step);
        ExtendsTransitive(c, cleared, Advance(cleared, id, step).state);
      }
    }
  }

  /** The reply to a step retires it, so a second reply to it, now or later, changes nothing. */
  lemma SettleRetiresTheStep(c: Controller, result: Result, step: Id)
    requires Invariant(c) && result.requestId in c.minted && step !in c.minted && step != ""
    ensures Retired(Settle(c, result, step).state, result.requestId)
  {
    hide Scopes, Traced, Lists;
    if id :| Awaits(c.requests, id, result.requestId) {
      SettleFindsTheRequest(c, id, result, step);
      RetiredOnceCleared(c, id, result.requestId);
      AcknowledgeConserves(c, id);
      hide Conserved, Advance, RecordsGrow, ResultsStay, Identifiers;
      var cleared := StepCleared(Acknowledged(c, id), id);
      if result.Succeeded() && !c.requests[id].finalStep {
        AdvanceExtends(cleared, id, step);
      } else {
        assert SettleOne(c, id, result, step).state.requests == c.requests - {id};
      }
    } else {
      assert forall id :: id in c.requests ==> !Awaits(c.requests, id, result.requestId);
    }
  }

  lemma RetiredOnceCleared(c: Controller, id: Id, step: Id)
    requires Identifiers(c, "") && Awaits(c.requests, id, step) && step in c.minted
    ensures Retired(StepCleared(Acknowledged(c, id), id), step)
    ensures forall c': Controller :: c'.requests == c.requests - {id} && c'.minted == c.minted ==> Retired(c', step)
  {
    assert forall a :: a in c.requests && a != id ==> c.requests[a].stepId != step;
  }

  lemma RetiredReplyChangesNothing(c: Controller, result: Result, step: Id)
    requires Invariant(c) && Retired(c, result.requestId)
    ensures Settle(c, result, step) == Move(c, None)
  {
  }

  lemma FewerRequestsRetireMore(c: Controller, c': Controller)
    requires c'.minted == c.minted && forall id :: id in c'.requests ==> id in c.requests && c'.requests[id] == c.requests[id]
    ensures RetiredStay(c, c')
  {
    forall step | step != "" && Retired(c, step) ensures Retired(c', step) {}
  }

  lemma FinishAllExtends(c: Controller, errorName: string)
    requires Conserved(c)
    ensures Extends(c, FinishAll(c, errorName))
  {
    hide RetiredStay;
    FewerRequestsRetireMore(c, FinishAll(c, errorName));
  }

  /** The lists have no part in what is recorded. */
  lemma ListsDoNotMatter(c: Controller, drives: seq<Drive>, volumes: seq<Volume>, available: bool)
    requires Conserved(c)
    ensures var c' := c.(drives := drives, volumes := volumes, available := available); Extends(c, c') && Conserved(c')
  {
    hide RetiredStay;
    FewerRequestsRetireMore(c, c.(drives := drives, volumes := volumes, available := available));
  }

  lemma TakeSnapshotExtends(c: Controller, drives: seq<Drive>, volumes: seq<Volume>, available: bool)
    requires Invariant(c)
    ensures Extends(c, TakeSnapshot(c, drives, volumes, available))
  {
    hide RecordModel.Reconciled, Identifiers, Scopes, Traced, Lists, Conserved, Extends, FinishAll;
    var newDrives := RecordModel.Reconciled(DriveId(), c.drives, if available then drives else []);
    var newVolumes := RecordModel.Reconciled(VolumeId(), c.volumes, if available then volumes else []);
    var c' := c.(drives := newDrives, volumes := newVolumes, available := available);
    ListsDoNotMatter(c, newDrives, newVolumes, available);
    FinishAllExtends(c', StorageError("Unavailable"));
    ExtendsTransitive(c, c', FinishAll(c', StorageError("Unavailable")));
  }

  // ---------------------------------------------------------------- reservations

  ghost function Holders(c: Controller, target: Id): set<Id> {
    set id | id in c.requests && target in c.requests[id].scope
  }

  /** busy(t) means exactly one pending request holds t; otherwise nobody does. */
  lemma BusyMeansOneHolder(c: Controller, target: Id)
    requires Invariant(c)
    ensures |Holders(c, target)| == if Busy(c.requests, target) then 1 else 0
    ensures !c.available ==> !Busy(c.requests, target)
  {
    hide Identifiers, Conserved, Traced, Lists;
    if Busy(c.requests, target) {
      var id :| id in c.requests && target in c.requests[id].scope;
      assert Holders(c, target) == {id} by {
        forall x | x in Holders(c, target) ensures x == id {}
      }
    } else {
      assert Holders(c, target) == {};
    }
  }
}
