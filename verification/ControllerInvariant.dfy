/** What every StorageController step keeps, and what a handed-out command may be. */
module ControllerInvariant {
  import opened Prelude
  import opened StorageTypes
  import opened ControllerSpec
  import RecordModel

  // ---------------------------------------------------------------- the invariant, clause by clause
  //
  // `mid` names the one request whose step is being decided right now; the empty string means none is.

  ghost predicate Identifiers(c: Controller, mid: Id) {
    && "" !in c.minted
    && c.requests.Keys <= c.traces.Keys <= c.minted
    && c.queued.Keys <= c.traces.Keys
    && (forall id :: id in c.requests && c.requests[id].stepId != "" ==> c.requests[id].stepId in c.minted)
    && (forall a, b :: a in c.requests && b in c.requests && a != b && c.requests[a].stepId != "" ==>
          c.requests[a].stepId != c.requests[b].stepId)
    && (forall id :: id in c.requests && id != mid ==> (id in c.queued <==> c.requests[id].stepId == ""))
  }

  /** No target is reserved twice, and nothing is reserved while the service is unavailable or by a refused request. */
  ghost predicate Scopes(c: Controller) {
    && (forall a, b, t :: a in c.requests && b in c.requests && a != b && t in c.requests[a].scope ==>
          t !in c.requests[b].scope)
    && (!c.available ==> forall id :: id in c.requests ==> c.requests[id].scope == [])
    && (forall id :: id in c.requests && id in c.queued && c.queued[id] != "" ==> c.requests[id].scope == [])
  }

  /** Every begun request is either pending or reported, and reported once. */
  ghost predicate Conserved(c: Controller) {
    && (forall id :: id in c.traces <==> id in c.requests || id in c.finished)
    && (forall id :: id in c.requests ==> id !in c.finished)
    && (forall id :: c.finished[id] <= 1)
    && (forall id :: id in c.finished <==> id in c.results)
  }

  ghost predicate Prefix(t: Trace) {
    && |t.sent| <= |t.plan|
    && (forall k :: 0 <= k < |t.sent| ==> Action(t.sent[k].operation, t.sent[k].targetId) == t.plan[k])
    && t.acked <= |t.sent| <= t.acked + 1
  }

  /** Everything sent so far succeeded and the rest of the plan is still to do. */
  ghost predicate Ready(t: Trace, r: Request) {
    && t.acked == |t.sent| <= |t.plan|
    && t.plan[|t.sent|..] == PlanOf(r.unmounts, r.operation, r.targetId)
    && !r.finalStep
    && r.scope == t.scope
    && (r.operation.PowerOff? ==> t.scope == SortIds(t.confirmed))
  }

  ghost predicate InFlight(t: Trace, r: Request) {
    && t.acked + 1 == |t.sent| <= |t.plan|
    && t.sent[t.acked].stepId == r.stepId
    && t.plan[|t.sent|..] == (if r.finalStep then [] else PlanOf(r.unmounts, r.operation, r.targetId))
    && r.scope == t.scope
    && (r.operation.PowerOff? ==> t.scope == SortIds(t.confirmed))
  }

  function Queued(c: Controller, id: Id): Option<string> {
    if id in c.queued then Some(c.queued[id]) else None
  }

  /** How a pending request relates to its record; `queued` is its callback still waiting in the event loop. */
  ghost predicate Follows(t: Trace, r: Request, queued: Option<string>) {
    if r.stepId != "" then InFlight(t, r)
    else t.sent == [] && (queued.Some? && queued.value == "" ==> Ready(t, r))
  }

  ghost predicate Traced(c: Controller, mid: Id) {
    && (forall id :: id in c.traces ==> Prefix(c.traces[id]))
    && (forall id :: id in c.requests && id != mid ==> id in c.traces && Follows(c.traces[id], c.requests[id], Queued(c, id)))
  }

  ghost predicate Lists(c: Controller) {
    && Distinct(RecordModel.IdsOf(DriveId(), c.drives))
    && Distinct(RecordModel.IdsOf(VolumeId(), c.volumes))
  }

  ghost predicate InvariantDuring(c: Controller, mid: Id) {
    Identifiers(c, mid) && Scopes(c) && Conserved(c) && Traced(c, mid) && Lists(c)
  }

  ghost predicate Invariant(c: Controller) {
    InvariantDuring(c, "")
  }

  // ---------------------------------------------------------------- each transition keeps it

  lemma InitialHolds()
    ensures Invariant(Initial())
  {}

  /** A request that is not refused is one that found the service available and every target of its scope free. */
  lemma AcceptedFindsAllFree(c: Controller, operation: Operation, targetId: Id, confirmed: seq<Id>)
    requires Refusal(c, operation, targetId, confirmed) == ""
    ensures c.available
    ensures forall a, t :: a in c.requests && t in c.requests[a].scope ==> t !in ScopeFor(c, operation, targetId)
  {
    hide RemovalScope, FindDrive, FindVolume, SortIds;
    var scope := ScopeFor(c, operation, targetId);
    forall a, t | a in c.requests && t in c.requests[a].scope ensures t !in scope {
      assert forall i :: 0 <= i < |scope| ==> !Busy(c.requests, scope[i]);
    }
  }

  lemma BeginKeepsScopes(c: Controller, id: Id, operation: Operation, targetId: Id, confirmed: seq<Id>)
    requires Scopes(c) && id !in c.requests
    ensures Scopes(Begin(c, id, operation, targetId, confirmed))
  {
    hide Refusal, ScopeFor, UnmountsFor, PlanOf;
    if Refusal(c, operation, targetId, confirmed) == "" {
      AcceptedFindsAllFree(c, operation, targetId, confirmed);
    }
  }

  /** An accepted power-off affects exactly the confirmed targets. */
  lemma AcceptedPowerOffIsConfirmed(c: Controller, targetId: Id, confirmed: seq<Id>)
    ensures Refusal(c, PowerOff, targetId, confirmed) == "" ==> ScopeFor(c, PowerOff, targetId) == SortIds(confirmed)
  {
  }

  lemma BeginKeepsTraced(c: Controller, id: Id, operation: Operation, targetId: Id, confirmed: seq<Id>)
    requires Traced(c, "") && id !in c.requests && id != "" && id !in c.traces && id !in c.queued
    ensures Traced(Begin(c, id, operation, targetId, confirmed), "")
  {
    var c' := Begin(c, id, operation, targetId, confirmed);
    var t, r := c'.traces[id], c'.requests[id];
    assert Prefix(t) && Follows(t, r, Queued(c', id)) by {
      if c'.queued[id] == "" && operation.PowerOff? { AcceptedPowerOffIsConfirmed(c, targetId, confirmed); }
      assert t.plan[0..] == t.plan;
    }
    assert forall x :: x in c.requests ==> Queued(c', x) == Queued(c, x);
  }

  lemma BeginKeepsIdentifiers(c: Controller, id: Id, operation: Operation, targetId: Id, confirmed: seq<Id>)
    requires Identifiers(c, "") && id !in c.minted && id != ""
    ensures Identifiers(Begin(c, id, operation, targetId, confirmed), "")
  {
  }

  lemma BeginKeeps(c: Controller, id: Id, operation: Operation, targetId: Id, confirmed: seq<Id>)
    requires Invariant(c) && id !in c.minted && id != ""
    ensures Invariant(Begin(c, id, operation, targetId, confirmed))
  {
    hide Scopes, Traced, Refusal, ScopeFor, UnmountsFor, PlanOf;
    BeginKeepsIdentifiers(c, id, operation, targetId, confirmed);
    BeginKeepsScopes(c, id, operation, targetId, confirmed);
    BeginKeepsTraced(c, id, operation, targetId, confirmed);
  }

  lemma FinishKeepsIdentifiers(c: Controller, id: Id, errorName: string, mountPath: string)
    requires Identifiers(c, id) || Identifiers(c, "")
    requires id in c.requests
    ensures Identifiers(Finish(c, id, errorName, mountPath), "")
  {
  }

  lemma FinishKeepsTraced(c: Controller, id: Id, errorName: string, mountPath: string)
    requires (Traced(c, id) || Traced(c, "")) && id in c.requests && "" !in c.requests
    ensures Traced(Finish(c, id, errorName, mountPath), "")
  {
    assert forall x :: Queued(Finish(c, id, errorName, mountPath), x) == Queued(c, x);
  }

  lemma FinishKeepsAccounts(c: Controller, id: Id, errorName: string, mountPath: string)
    requires Scopes(c) && Conserved(c) && id in c.requests
    ensures Scopes(Finish(c, id, errorName, mountPath)) && Conserved(Finish(c, id, errorName, mountPath))
  {
  }

  lemma FinishKeeps(c: Controller, id: Id, errorName: string, mountPath: string)
    requires InvariantDuring(c, id) || Invariant(c)
    requires id in c.requests
    ensures Invariant(Finish(c, id, errorName, mountPath))
  {
    assert "" !in c.requests;
    hide Identifiers, Traced, Scopes, Conserved;
    FinishKeepsIdentifiers(c, id, errorName, mountPath);
    FinishKeepsTraced(c, id, errorName, mountPath);
    FinishKeepsAccounts(c, id, errorName, mountPath);
  }

  lemma FinishAllKeeps(c: Controller, errorName: string)
    requires Identifiers(c, "") && Conserved(c) && Traced(c, "") && Lists(c)
    ensures Invariant(FinishAll(c, errorName))
  {
    assert forall x :: x in multiset(c.requests.Keys) <==> x in c.requests;
  }

  // The small changes that Advance, Dequeue and Settle are made of.

  lemma MintKeeps(c: Controller, id: Id, step: Id)
    requires InvariantDuring(c, id) && step != ""
    ensures InvariantDuring(c.(minted := c.minted + {step}), id)
  {
    assert forall x :: Queued(c.(minted := c.minted + {step}), x) == Queued(c, x);
  }

  lemma DropQueuedKeepsIdentifiers(c: Controller, id: Id)
    requires Identifiers(c, "") && id in c.queued
    ensures Identifiers(QueueDropped(c, id), id)
    ensures id !in c.requests ==> Identifiers(QueueDropped(c, id), "")
  {
  }

  lemma DropQueuedKeepsTraced(c: Controller, id: Id)
    requires Traced(c, "") && "" !in c.requests
    ensures Traced(QueueDropped(c, id), id)
    ensures id !in c.requests ==> Traced(QueueDropped(c, id), "")
  {
    assert forall x :: x != id ==> Queued(QueueDropped(c, id), x) == Queued(c, x);
  }

  lemma DropQueuedKeeps(c: Controller, id: Id)
    requires Invariant(c) && id in c.queued
    ensures InvariantDuring(QueueDropped(c, id), id)
    ensures id !in c.requests ==> Invariant(QueueDropped(c, id))
  {
    hide Identifiers, Traced;
    DropQueuedKeepsIdentifiers(c, id);
    DropQueuedKeepsTraced(c, id);
  }

  lemma AcknowledgeKeepsTraced(c: Controller, id: Id)
    requires Traced(c, "") && "" !in c.requests && id in c.requests && id in c.traces && c.requests[id].stepId != ""
    ensures Traced(Acknowledged(c, id), id)
  {
    var c' := Acknowledged(c, id);
    assert Follows(c.traces[id], c.requests[id], Queued(c, id));
    assert Prefix(c'.traces[id]);
    assert forall x :: Queued(c', x) == Queued(c, x);
  }

  lemma AcknowledgeKeepsReservations(c: Controller, id: Id)
    requires Identifiers(c, "") && Scopes(c) && id in c.requests && c.requests[id].stepId != ""
    ensures Identifiers(Acknowledged(c, id), id) && Scopes(Acknowledged(c, id)) && "" !in c.requests
  {
    assert Acknowledged(c, id).traces.Keys == c.traces.Keys;
  }

  lemma AcknowledgeKeeps(c: Controller, id: Id)
    requires Invariant(c) && id in c.requests && c.requests[id].stepId != ""
    ensures InvariantDuring(Acknowledged(c, id), id)
  {
    hide Traced, Identifiers, Scopes;
    AcknowledgeKeepsReservations(c, id);
    AcknowledgeKeepsTraced(c, id);
    assert Acknowledged(c, id).traces.Keys == c.traces.Keys;
  }

  lemma ClearStepKeepsIdentifiers(c: Controller, id: Id)
    requires Identifiers(c, id) && id in c.requests
    ensures Identifiers(StepCleared(c, id), id)
  {
    assert StepCleared(c, id).requests.Keys == c.requests.Keys;
  }

  lemma ClearStepKeepsTraced(c: Controller, id: Id)
    requires Traced(c, id) && id in c.requests
    ensures Traced(StepCleared(c, id), id)
  {
    assert forall x :: Queued(StepCleared(c, id), x) == Queued(c, x);
  }

  lemma ClearStepKeepsAccounts(c: Controller, id: Id)
    requires Scopes(c) && Conserved(c) && id in c.requests
    ensures Scopes(StepCleared(c, id)) && Conserved(StepCleared(c, id))
  {
    assert StepCleared(c, id).requests.Keys == c.requests.Keys;
  }

  lemma ClearStepKeeps(c: Controller, id: Id)
    requires InvariantDuring(c, id) && id in c.requests
    ensures InvariantDuring(StepCleared(c, id), id)
  {
    hide Identifiers, Traced, Scopes, Conserved;
    ClearStepKeepsIdentifiers(c, id);
    ClearStepKeepsTraced(c, id);
    ClearStepKeepsAccounts(c, id);
  }

  lemma SendKeepsStepsApart(requests: map<Id, Request>, id: Id, request: Request)
    requires forall a, b :: a in requests && b in requests && a != b && requests[a].stepId != "" ==>
               requests[a].stepId != requests[b].stepId
    requires forall a :: a in requests && a != id ==> requests[a].stepId != request.stepId
    ensures var requests' := requests[id := request];
            forall a, b :: a in requests' && b in requests' && a != b && requests'[a].stepId != "" ==>
              requests'[a].stepId != requests'[b].stepId
  {}

  lemma SendKeepsIdentifiers(c: Controller, id: Id, request: Request, command: Command)
    requires Identifiers(c, id) && id in c.requests && id !in c.queued
    requires command.stepId in c.minted && request.stepId == command.stepId
    requires forall a :: a in c.requests && a != id ==> c.requests[a].stepId != command.stepId
    ensures Identifiers(Send(c, id, request, command).state, "")
  {
    var c' := Send(c, id, request, command).state;
    assert c'.traces.Keys == c.traces.Keys && c'.requests.Keys == c.requests.Keys;
    SendKeepsStepsApart(c.requests, id, request);
  }

  lemma SendKeepsScopes(c: Controller, id: Id, request: Request, command: Command)
    requires Scopes(c) && id in c.requests && id in c.traces && request.scope == c.requests[id].scope
    ensures Scopes(Send(c, id, request, command).state)
  {
    assert Send(c, id, request, command).state.requests.Keys == c.requests.Keys;
  }

  lemma SendKeepsConserved(c: Controller, id: Id, request: Request, command: Command)
    requires Conserved(c) && id in c.requests && id in c.traces
    ensures Conserved(Send(c, id, request, command).state)
  {
    var c' := Send(c, id, request, command).state;
    assert c'.traces.Keys == c.traces.Keys && c'.requests.Keys == c.requests.Keys;
  }

  lemma SendKeepsTraced(c: Controller, id: Id, request: Request, command: Command)
    requires Traced(c, id) && id in c.requests && id in c.traces && id !in c.queued
    requires request.stepId != "" && id != ""
    requires InFlight(c.traces[id].(sent := c.traces[id].sent + [command]), request)
    requires Prefix(c.traces[id].(sent := c.traces[id].sent + [command]))
    ensures Traced(Send(c, id, request, command).state, "")
  {
    var c' := Send(c, id, request, command).state;
    assert forall x :: Queued(c', x) == Queued(c, x);
    assert Follows(c'.traces[id], c'.requests[id], Queued(c', id));
  }

  lemma SendKeeps(c: Controller, id: Id, request: Request, command: Command)
    requires InvariantDuring(c, id) && id in c.requests && id !in c.queued
    requires command.stepId in c.minted && request.stepId == command.stepId
    requires forall a :: a in c.requests && a != id ==> c.requests[a].stepId != command.stepId
    requires request.scope == c.requests[id].scope
    requires InFlight(c.traces[id].(sent := c.traces[id].sent + [command]), request)
    requires Prefix(c.traces[id].(sent := c.traces[id].sent + [command]))
    ensures Invariant(Send(c, id, request, command).state)
  {
    assert id in c.traces && id != "" by { assert id in c.minted; }
    hide Identifiers, Scopes, Traced, Conserved, Prefix, InFlight;
    SendKeepsIdentifiers(c, id, request, command);
    SendKeepsScopes(c, id, request, command);
    SendKeepsTraced(c, id, request, command);
    SendKeepsConserved(c, id, request, command);
  }

  // ---------------------------------------------------------------- the composite transitions

  /** The command at the head of the remaining plan is the one Advance sends. */
  lemma NextActionIsSent(t: Trace, r: Request, step: Id)
    requires Prefix(t) && Ready(t, r)
    ensures r.unmounts != [] ==>
              var t' := t.(sent := t.sent + [Command(step, Unmount, r.unmounts[0])]);
              Prefix(t') && InFlight(t', r.(stepId := step, unmounts := r.unmounts[1..]))
    ensures r.unmounts == [] ==>
              var t' := t.(sent := t.sent + [Command(step, r.operation, r.targetId)]);
              Prefix(t') && InFlight(t', r.(stepId := step, finalStep := true))
  {
    var rest := t.plan[|t.sent|..];
    var n := |t.sent|;
    assert rest[0] == t.plan[n] && rest[1..] == t.plan[n + 1..];
    if r.unmounts != [] {
      assert rest[1..] == PlanOf(r.unmounts[1..], r.operation, r.targetId);
    }
  }

  lemma AdvanceKeeps(c: Controller, id: Id, step: Id)
    requires InvariantDuring(c, id) && id in c.requests && id !in c.queued && step != "" && step !in c.minted
    requires Ready(c.traces[id], c.requests[id])
    ensures Invariant(Advance(c, id, step).state)
  {
    var request := c.requests[id];
    if TopologyError(c.drives, c.volumes, request) != "" {
      FinishKeeps(c, id, TopologyError(c.drives, c.volumes, request), "");
    } else {
      var c' := c.(minted := c.minted + {step});
      MintKeeps(c, id, step);
      NextActionIsSent(c.traces[id], request, step);
      if request.unmounts != [] {
        var volume := FindVolume(c.volumes, request.unmounts[0]);
        if volume.None? || !volume.value.canUnmount {
          FinishKeeps(c', id, StorageError("Disappeared"), "");
        } else {
          SendKeeps(c', id, request.(stepId := step, unmounts := request.unmounts[1..]),
                    Command(step, Unmount, request.unmounts[0]));
        }
      } else if RemovalError(c.drives, c.volumes, request) != "" {
        FinishKeeps(c', id, RemovalError(c.drives, c.volumes, request), "");
      } else {
        SendKeeps(c', id, request.(stepId := step, finalStep := true), Command(step, request.operation, request.targetId));
      }
    }
  }

  lemma DequeueKeeps(c: Controller, id: Id, step: Id)
    requires Invariant(c) && id in c.queued && step != "" && step !in c.minted
    ensures Invariant(Dequeue(c, id, step).state)
  {
    var c' := QueueDropped(c, id);
    DropQueuedKeeps(c, id);
    if id in c.requests {
      assert Follows(c.traces[id], c.requests[id], Queued(c, id));
      if c.queued[id] != "" {
        FinishKeeps(c', id, StorageError(c.queued[id]), "");
      } else {
        AdvanceKeeps(c', id, step);
      }
    }
  }

  lemma SettleFindsTheRequest(c: Controller, id: Id, result: Result, step: Id)
    requires Identifiers(c, "") && Awaits(c.requests, id, result.requestId) && result.requestId != ""
    ensures Settle(c, result, step) == SettleOne(c, id, result, step)
  {
    assert forall a :: Awaits(c.requests, a, result.requestId) ==> a == id;
  }

  lemma SettleOneKeeps(c: Controller, id: Id, result: Result, step: Id)
    requires Invariant(c) && Awaits(c.requests, id, result.requestId) && result.requestId != ""
    requires step != "" && step !in c.minted
    ensures Invariant(SettleOne(c, id, result, step).state)
  {
    var acked := Acknowledged(c, id);
    assert Follows(c.traces[id], c.requests[id], Queued(c, id));
    AcknowledgeKeeps(c, id);
    if !result.Succeeded() {
      FinishKeeps(c, id, result.errorName, "");
    } else if c.requests[id].finalStep {
      FinishKeeps(acked, id, "", result.mountPath);
    } else {
      ClearStepKeeps(acked, id);
      AdvanceKeeps(StepCleared(acked, id), id, step);
    }
  }

  lemma SettleKeeps(c: Controller, result: Result, step: Id)
    requires Invariant(c) && result.requestId != "" && step != "" && step !in c.minted
    ensures Invariant(Settle(c, result, step).state)
  {
    if id :| Awaits(c.requests, id, result.requestId) {
      SettleFindsTheRequest(c, id, result, step);
      SettleOneKeeps(c, id, result, step);
    }
  }

  lemma NewListsKeepRecords(c: Controller, drives: seq<Drive>, volumes: seq<Volume>, available: bool)
    requires Invariant(c)
    ensures var c' := c.(drives := drives, volumes := volumes, available := available);
            Identifiers(c', "") && Conserved(c') && Traced(c', "") && (available ==> Scopes(c'))
  {
    assert forall x :: Queued(c.(drives := drives, volumes := volumes, available := available), x) == Queued(c, x);
  }

  lemma TakeSnapshotKeeps(c: Controller, drives: seq<Drive>, volumes: seq<Volume>, available: bool)
    requires Invariant(c)
    ensures Invariant(TakeSnapshot(c, drives, volumes, available))
  {
    RecordModel.ReconciledMeaning(DriveId(), c.drives, if available then drives else []);
    RecordModel.ReconciledMeaning(VolumeId(), c.volumes, if available then volumes else []);
    var c' := c.(drives := RecordModel.Reconciled(DriveId(), c.drives, if available then drives else []),
                 volumes := RecordModel.Reconciled(VolumeId(), c.volumes, if available then volumes else []),
                 available := available);
    NewListsKeepRecords(c, c'.drives, c'.volumes, available);
    hide Identifiers, Conserved, Traced, Scopes, RecordModel.Reconciled;
    if !available {
      FinishAllKeeps(c', StorageError("Unavailable"));
    }
  }
}
