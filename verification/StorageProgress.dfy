/**
 Requests of the storage component make progress: held results are delivered, and each one brings its request closer to
 the end.
 */
module StorageProgress {
  import opened Prelude
  import opened StorageTypes
  import opened StorageSystem
  import opened StorageSystemInvariant
  import C = ControllerSpec
  import CI = ControllerInvariant
  import CG = ControllerGuarantees
  import L = LifetimeIds
  import R = RefreshProtocol
  import T = StorageSystemTheorems
  import U = UDisksSpec
  import UI = UDisksInvariant

  // ---------------------------------------------------------------- each result is progress

  /** How many results a pending request still needs at most. */
  ghost function Remaining(c: C.Controller, id: Id): int
    requires CI.Invariant(c)
  {
    if id in c.requests then |c.traces[id].plan| - c.traces[id].acked else 0
  }

  lemma BegunRequestNeedsItsPlan(c: C.Controller, id: Id, operation: Operation, targetId: Id, confirmed: seq<Id>)
    requires CI.Invariant(c) && id !in c.minted && id != ""
    ensures var c' := C.Begin(c, id, operation, targetId, confirmed);
            CI.Invariant(c') && Remaining(c', id) == |c'.traces[id].plan|
  {
    CI.BeginKeeps(c, id, operation, targetId, confirmed);
  }

  /** A request that waits for a result needs at least this one. */
  lemma AwaitingNeedsMore(c: C.Controller, id: Id)
    requires CI.Invariant(c) && id in c.requests && c.requests[id].stepId != ""
    ensures Remaining(c, id) >= 1
  {
    assert CI.Follows(c.traces[id], c.requests[id], CI.Queued(c, id));
  }

  /**
   The result a request waits for brings it closer to its end by at least one, whatever it says: so a request ends after
   at most as many results as its plan has actions. Other requests stay where they are.
   */
  lemma EachResultIsProgress(c: C.Controller, id: Id, result: Result, step: Id)
    requires CI.Invariant(c) && C.Awaits(c.requests, id, result.requestId) && result.requestId != ""
    requires step != "" && step !in c.minted
    ensures var c' := C.Settle(c, result, step).state;
            && CI.Invariant(c')
            && 0 <= Remaining(c', id) < Remaining(c, id)
            && (Remaining(c', id) == 0 <==> id !in c'.requests)
            && forall other :: other != id && other in c.requests ==> other in c'.requests && Remaining(c', other) == Remaining(c, other)
  {
    hide CI.Scopes, CI.Conserved, CI.Traced, CI.Lists, MovesOnly, C.SettleOne;
    CI.SettleKeeps(c, result, step);
    CI.SettleFindsTheRequest(c, id, result, step);
    AwaitingNeedsMore(c, id);
    OnlyThisRequestMoves(c, id, result, step);
    MoveIsProgress(c, C.SettleOne(c, id, result, step).state, id, step);
  }

  lemma MoveIsProgress(c: C.Controller, c': C.Controller, id: Id, step: Id)
    requires CI.Invariant(c) && CI.Invariant(c') && id in c.requests && step != "" && Remaining(c, id) >= 1
    requires MovesOnly(c.requests, c.traces, c', id, step, 1)
    ensures 0 <= Remaining(c', id) < Remaining(c, id)
    ensures Remaining(c', id) == 0 <==> id !in c'.requests
    ensures forall other :: other != id && other in c.requests ==> other in c'.requests && Remaining(c', other) == Remaining(c, other)
  {
    hide CI.Scopes, CI.Conserved, CI.Traced, CI.Lists;
    if id in c'.requests {
      AwaitingNeedsMore(c', id);
    }
  }

  /** What a move may do to its own request and to the others. */
  ghost predicate MovesOnly(requests: map<Id, C.Request>, traces: map<Id, C.Trace>, c': C.Controller, id: Id, step: Id, acked: int) {
    && (id in c'.requests ==>
          && id in traces && id in c'.traces && c'.requests[id].stepId == step
          && c'.traces[id].plan == traces[id].plan && c'.traces[id].acked == traces[id].acked + acked)
    && (forall other :: other != id && other in requests ==>
          other in traces && other in c'.traces && other in c'.requests && c'.traces[other] == traces[other])
  }

  lemma FinishMovesOnly(c: C.Controller, id: Id, errorName: string, mountPath: string, step: Id, acked: int)
    requires forall x :: x in c.requests ==> x in c.traces
    ensures MovesOnly(c.requests, c.traces, C.Finish(c, id, errorName, mountPath), id, step, acked)
  {}

  lemma SendMovesOnly(c: C.Controller, id: Id, request: C.Request, command: C.Command)
    requires id in c.traces && forall x :: x in c.requests ==> x in c.traces
    ensures MovesOnly(c.requests, c.traces, C.Send(c, id, request, command).state, id, request.stepId, 0)
  {}

  lemma AdvanceMovesOnly(c: C.Controller, id: Id, step: Id)
    requires id in c.requests && forall x :: x in c.requests ==> x in c.traces
    ensures MovesOnly(c.requests, c.traces, C.Advance(c, id, step).state, id, step, 0)
  {
    hide MovesOnly, C.Finish, C.Send, C.TopologyError, C.RemovalError, C.FindVolume;
    var c', request := c.(minted := c.minted + {step}), c.requests[id];
    FinishMovesOnly(c, id, C.TopologyError(c.drives, c.volumes, request), "", step, 0);
    FinishMovesOnly(c', id, StorageError("Disappeared"), "", step, 0);
    FinishMovesOnly(c', id, C.RemovalError(c.drives, c.volumes, request), "", step, 0);
    if request.unmounts != [] {
      SendMovesOnly(c', id, request.(stepId := step, unmounts := request.unmounts[1..]),
                    C.Command(step, Unmount, request.unmounts[0]));
    } else {
      SendMovesOnly(c', id, request.(stepId := step, finalStep := true), C.Command(step, request.operation, request.targetId));
    }
  }

  lemma OnlyThisRequestMoves(c: C.Controller, id: Id, result: Result, step: Id)
    requires id in c.requests && forall x :: x in c.requests ==> x in c.traces
    ensures MovesOnly(c.requests, c.traces, C.SettleOne(c, id, result, step).state, id, step, 1)
  {
    hide C.Advance;
    AdvanceMovesOnly(C.StepCleared(C.Acknowledged(c, id), id), id, step);
  }

  // ---------------------------------------------------------------- held results are delivered

  /** A successful reply to the snapshot call of the present generation. */
  ghost predicate FreshReply(s: System, e: Event) {
    e.SnapshotAnswered? && Enabled(s, e) && e.objects.Some? && R.Current(s.backend.refresh, e.at)
  }

  /** There is always such a call while results are held back. */
  lemma HeldResultsAwaitACall(b: U.Backend)
    requires UI.Invariant(b) && b.completions != []
    ensures exists t :: R.Current(b.refresh, t)
  {}

  lemma {:induction false} AllDeliveredRetire(s: System, signals: seq<U.Signal>, steps: seq<Id>)
    requires |steps| == |signals| && InvariantDuring(s, signals) && FreshSteps(s.controller, steps)
    requires forall g :: g in signals && g.SnapshotChanged? ==> g.available
    ensures forall g :: g in signals && g.OperationFinished? ==>
              CG.Retired(HandleAll(s, signals, steps).controller, g.result.requestId)
    decreases |signals|
  {
    hide Linked, StaleCallsRetired, LogJustified, UI.Invariant, CI.Scopes, CI.Conserved, CI.Traced, CI.Lists,
         CG.RecordsGrow, CG.ResultsStay, CG.Retired;
    if signals != [] {
      assert signals == [signals[0]] + signals[1..] && signals[0] in signals;
      match signals[0] {
        case SnapshotChanged(drives, volumes, available) => SnapshotHandled(s, drives, volumes, steps[0], signals[1..]);
        case OperationFinished(result) =>
          ResultHandled(s, result, steps[0], signals[1..]);
          CG.SettleRetiresTheStep(s.controller, result, steps[0]);
      }
      var s' := Handle(s, signals[0], steps[0]);
      assert FreshSteps(s'.controller, steps[1..]);
      AllHandled(s', signals[1..], steps[1..]);
      AllDeliveredRetire(s', signals[1..], steps[1..]);
    }
  }

  /** A reply nothing has disturbed delivers everything; otherwise the call is repeated, and its reply will be undisturbed. */
  lemma ReplyDeliversOrAsksAgain(b: U.Backend, t: nat, objects: seq<U.Object>, uuids: map<U.Key, Id>)
    requires UI.Invariant(b) && R.Current(b.refresh, t) && uuids.Keys == U.Live(objects) - b.ids.Keys
    ensures var m := U.Answered(b, t, Some(objects), uuids);
            if b.refresh.disturbedAt < t then
              && m.state.completions == [] && |m.signals| == 1 + |b.completions|
              && forall i :: 0 <= i < |b.completions| ==>
                   m.signals[i + 1].OperationFinished? && m.signals[i + 1].result.requestId == b.completions[i].result.requestId
            else
              && m.signals == [] && m.state.completions == b.completions
              && forall t' :: R.Current(m.state.refresh, t') ==> m.state.refresh.disturbedAt < t'
  {
    hide U.Published, L.IdsAfter, UI.IdsSound, UI.CallsSound, U.Live;
  }

  lemma FreshReplyDelivers(s: System, e: Event)
    requires Invariant(s) && FreshReply(s, e) && s.backend.refresh.disturbedAt < e.at
    ensures Step(s, e).backend.completions == []
    ensures forall c :: c in s.backend.completions ==> CG.Retired(Step(s, e).controller, c.result.requestId)
  {
    hide Linked, StaleCallsRetired, LogJustified, CI.Invariant, CG.Retired, CG.Extends, U.Published, L.IdsAfter, UI.IdsSound, UI.CallsSound;
    var m := U.Answered(s.backend, e.at, e.objects, e.uuids);
    assert e.uuids.Keys == U.Live(e.objects.value) - s.backend.ids.Keys;
    ReplyDeliversOrAsksAgain(s.backend, e.at, e.objects.value, e.uuids);
    SnapshotAnsweredStep(s, e.at, e.objects, e.uuids, e.steps);
    PublicationLinks(s, e.at, e.objects, e.uuids);
    PublicationIsAvailable(s.backend, e.at, e.objects, e.uuids);
    AllDeliveredRetire(s.(backend := m.state), m.signals, e.steps);
    forall c | c in s.backend.completions ensures CG.Retired(Step(s, e).controller, c.result.requestId) {
      var i :| 0 <= i < |s.backend.completions| && s.backend.completions[i] == c;
      assert m.signals[i + 1] in m.signals;
    }
  }

  /** Deliver one reply, and the reply to the repeated call if results are still held back. */
  ghost function TwoReplies(s: System, e1: Event, e2: Event): System {
    var s1 := Step(s, e1);
    if s1.backend.completions == [] then s1 else Step(s1, e2)
  }

  /**
   In every run: if nothing else changes, at most two successful snapshot replies deliver every result held back, and no
   request waits for any of them afterwards.
   */
  lemma HeldResultsAreDelivered(service: string, events: seq<Event>, e1: Event, e2: Event)
    requires var s := Run(service, events);
             && FreshReply(s, e1)
             && (Step(s, e1).backend.completions != [] ==> FreshReply(Step(s, e1), e2))
    ensures var s, s' := Run(service, events), TwoReplies(Run(service, events), e1, e2);
            && s'.backend.completions == []
            && forall c :: c in s.backend.completions ==> CG.Retired(s'.controller, c.result.requestId)
  {
    var s := Run(service, events);
    T.EveryRunKeepsInvariant(service, events);
    if s.backend.refresh.disturbedAt < e1.at {
      FreshReplyDelivers(s, e1);
    } else {
      DisturbedReplyRepeats(s, e1);
      T.StepKeeps(s, e1);
      if s.backend.completions != [] {
        FreshReplyDelivers(Step(s, e1), e2);
      }
    }
  }

  lemma DisturbedReplyRepeats(s: System, e: Event)
    requires Invariant(s) && FreshReply(s, e) && s.backend.refresh.disturbedAt >= e.at
    ensures Step(s, e).controller == s.controller && Step(s, e).backend.completions == s.backend.completions
    ensures forall t' :: R.Current(Step(s, e).backend.refresh, t') ==> Step(s, e).backend.refresh.disturbedAt < t'
  {
    hide Linked, StaleCallsRetired, LogJustified, CI.Invariant, U.Published, L.IdsAfter, UI.IdsSound, UI.CallsSound;
    assert e.uuids.Keys == U.Live(e.objects.value) - s.backend.ids.Keys;
    ReplyDeliversOrAsksAgain(s.backend, e.at, e.objects.value, e.uuids);
  }
}
