/** No request is orphaned, and every command is justified, in every run of controller and backend together. */
module StorageSystemInvariant {
  import opened Prelude
  import opened StorageTypes
  import opened StorageSystem
  import C = ControllerSpec
  import CI = ControllerInvariant
  import CG = ControllerGuarantees
  import L = LifetimeIds
  import U = UDisksSpec
  import UI = UDisksInvariant
  import R = RefreshProtocol
  import RecordModel

  // ---------------------------------------------------------------- which steps a move leaves awaited

  /** After the move a request awaits what it awaited before (but not `answered`), or the command just issued. */
  ghost predicate Accounted(c: C.Controller, m: C.Move, answered: Id, step: Id) {
    && c.minted <= m.state.minted <= c.minted + {step}
    && (m.command.Some? ==> m.command.value.stepId in m.state.minted)
    && (forall x :: x in m.state.requests && m.state.requests[x].stepId != "" ==>
          || (x in c.requests && c.requests[x].stepId == m.state.requests[x].stepId && c.requests[x].stepId != answered)
          || (m.command.Some? && m.state.requests[x].stepId == m.command.value.stepId))
  }

  lemma AdvanceAccounts(c: C.Controller, id: Id, step: Id, answered: Id)
    requires id in c.requests && id in c.traces
    requires forall x :: x in c.requests && c.requests[x].stepId != "" ==> c.requests[x].stepId != answered
    ensures Accounted(c, C.Advance(c, id, step), answered, step)
  {
    hide C.RemovalScope, C.MountedIn, C.FindDrive, C.FindVolume;
  }

  lemma DequeueAccounts(c: C.Controller, id: Id, step: Id)
    requires CI.Invariant(c) && id in c.queued
    ensures Accounted(c, C.Dequeue(c, id, step), "", step)
  {
    if id in c.requests && c.queued[id] == "" {
      AdvanceAccounts(C.QueueDropped(c, id), id, step, "");
    }
  }

  lemma SettleAccounts(c: C.Controller, result: Result, step: Id)
    requires CI.Invariant(c) && result.requestId in c.minted
    ensures Accounted(c, C.Settle(c, result, step), result.requestId, step)
  {
    if id :| C.Awaits(c.requests, id, result.requestId) {
      CI.SettleFindsTheRequest(c, id, result, step);
      SettleOneAccounts(c, id, result, step);
    } else {
      assert forall id :: id in c.requests ==> !C.Awaits(c.requests, id, result.requestId);
    }
  }

  lemma FinishAccounts(c: C.Controller, id: Id, errorName: string, mountPath: string, answered: Id, step: Id)
    requires id in c.requests
    requires forall x :: x in c.requests && x != id && c.requests[x].stepId != "" ==> c.requests[x].stepId != answered
    ensures Accounted(c, C.Move(C.Finish(c, id, errorName, mountPath), None), answered, step)
  {}

  lemma SettleOneAccounts(c: C.Controller, id: Id, result: Result, step: Id)
    requires CI.Identifiers(c, "") && C.Awaits(c.requests, id, result.requestId) && result.requestId != ""
    ensures Accounted(c, C.SettleOne(c, id, result, step), result.requestId, step)
  {
    hide C.Advance, C.Finish;
    var acked := C.Acknowledged(c, id);
    assert forall x :: x in c.requests && x != id ==> c.requests[x].stepId != result.requestId;
    FinishAccounts(c, id, result.errorName, "", result.requestId, step);
    FinishAccounts(acked, id, "", result.mountPath, result.requestId, step);
    AdvanceAccounts(C.StepCleared(acked, id), id, step, result.requestId);
  }

  // ---------------------------------------------------------------- backend steps

  /** Owed only looks at the three places of the backend and the signals under way. */
  lemma ExecuteOwes(b: U.Backend, command: C.Command, rest: seq<U.Signal>)
    requires UI.CallsSound(b)
    ensures var b' := U.Execute(b, command.stepId, command.operation, command.targetId);
            Owed(b', rest, command.stepId) && forall step :: Owed(b, rest, step) ==> Owed(b', rest, step)
  {
    var b' := U.Execute(b, command.stepId, command.operation, command.targetId);
    var result := Result(command.stepId, command.targetId, command.operation, "", "");
    if b'.immediate != b.immediate {
      assert result.(errorName := StorageError("Disappeared")) in b'.immediate;
    } else {
      assert b.refresh.clock in b'.operations;
    }
    forall step | Owed(b, rest, step) ensures Owed(b', rest, step) {
      if t :| t in b.operations && b.operations[t].generation == b.refresh.generation
              && b.operations[t].result.requestId == step {
        assert t in b'.operations && b'.operations[t] == b.operations[t];
      } else if r :| r in b.immediate && r.requestId == step {
        assert r in b'.immediate;
      }
    }
  }

  lemma ExecuteKnown(minted: set<Id>, b: U.Backend, rest: seq<U.Signal>, command: C.Command)
    requires StepsKnown(minted, b, rest) && command.stepId in minted
    ensures StepsKnown(minted, U.Execute(b, command.stepId, command.operation, command.targetId), rest)
  {
  }

  lemma KnownGrows(minted: set<Id>, minted': set<Id>, b: U.Backend, rest: seq<U.Signal>)
    requires StepsKnown(minted, b, rest) && minted <= minted'
    ensures StepsKnown(minted', b, rest)
  {
  }

  /** Performing an accounted move keeps every awaited step owed. */
  lemma PerformLinks(s: System, move: C.Move, answered: Id, step: Id, rest: seq<U.Signal>)
    requires Accounted(s.controller, move, answered, step) && UI.CallsSound(s.backend)
    requires forall id :: id in s.controller.requests && s.controller.requests[id].stepId != ""
                          && s.controller.requests[id].stepId != answered ==>
                            Owed(s.backend, rest, s.controller.requests[id].stepId)
    ensures Linked(Perform(s, move), rest)
  {
    hide Owed;
    if move.command.Some? {
      ExecuteOwes(s.backend, move.command.value, rest);
    }
  }

  lemma PerformKeepsStaleRetired(s: System, move: C.Move)
    requires StaleCallsRetired(s) && CG.RetiredStay(s.controller, move.state)
    requires StepsKnown(s.controller.minted, s.backend, []) && "" !in s.controller.minted
    requires UI.CallsSound(s.backend)
    ensures StaleCallsRetired(Perform(s, move))
  {
    hide CG.Retired;
    var s' := Perform(s, move);
    forall t | t in s'.backend.operations && s'.backend.operations[t].generation != s'.backend.refresh.generation
      ensures CG.Retired(s'.controller, s'.backend.operations[t].result.requestId)
    {
      assert t in s.backend.operations && s.backend.operations[t] == s'.backend.operations[t];
    }
  }

  /** One controller move, performed: everything the system promises still holds. */
  lemma PerformKeeps(s: System, move: C.Move, answered: Id, step: Id, rest: seq<U.Signal>)
    requires CI.Invariant(move.state) && UI.Invariant(s.backend) && LogJustified(s) && StaleCallsRetired(s)
    requires Accounted(s.controller, move, answered, step) && CG.RetiredStay(s.controller, move.state)
    requires StepsKnown(s.controller.minted, s.backend, rest) && "" !in s.controller.minted
    requires forall id :: id in s.controller.requests && s.controller.requests[id].stepId != ""
                          && s.controller.requests[id].stepId != answered ==>
                            Owed(s.backend, rest, s.controller.requests[id].stepId)
    requires move.command.Some? ==> CG.Justified(move.state, move.command.value)
    ensures InvariantDuring(Perform(s, move), rest)
  {
    hide CI.Invariant, Owed, Linked, StaleCallsRetired, CG.Justified, CG.RetiredStay;
    assert UI.CallsSound(s.backend);
    PerformLinks(s, move, answered, step, rest);
    PerformKeepsStaleRetired(s, move);
    KnownGrows(s.controller.minted, move.state.minted, s.backend, rest);
    if move.command.Some? {
      var command := move.command.value;
      UI.ExecuteKeeps(s.backend, command.stepId, command.operation, command.targetId);
      ExecuteKnown(move.state.minted, s.backend, rest, command);
    }
  }

  // ---------------------------------------------------------------- signals

  lemma OwedByOthers(b: U.Backend, result: Result, rest: seq<U.Signal>, step: Id)
    requires Owed(b, [U.OperationFinished(result)] + rest, step) && step != result.requestId
    ensures Owed(b, rest, step)
  {
    if g :| g in [U.OperationFinished(result)] + rest && g.OperationFinished? && g.result.requestId == step {
      assert g in rest;
    }
  }

  /** Handling signals leaves the backend's IDs and held results alone and only appends to the log. */
  ghost predicate SameTable(s: System, s': System) {
    && s'.backend.ids == s.backend.ids && s'.backend.drawn == s.backend.drawn
    && s'.backend.completions == s.backend.completions
    && s.log <= s'.log
  }

  lemma ResultHandled(s: System, result: Result, step: Id, rest: seq<U.Signal>)
    requires InvariantDuring(s, [U.OperationFinished(result)] + rest)
    requires step != "" && step !in s.controller.minted
    ensures InvariantDuring(Handle(s, U.OperationFinished(result), step), rest)
    ensures CG.Extends(s.controller, Handle(s, U.OperationFinished(result), step).controller)
    ensures Handle(s, U.OperationFinished(result), step).controller.minted <= s.controller.minted + {step}
    ensures SameTable(s, Handle(s, U.OperationFinished(result), step))
  {
    hide Owed, StaleCallsRetired, LogJustified, CG.Justified, UI.Invariant, C.Settle, CI.Scopes, CI.Conserved, CI.Traced,
         CI.Lists, CG.RecordsGrow, CG.ResultsStay, CG.RetiredStay;
    var signals := [U.OperationFinished(result)] + rest;
    assert U.OperationFinished(result) in signals;
    assert result.requestId in s.controller.minted && result.requestId != "";
    var move := C.Settle(s.controller, result, step);
    SettleAccounts(s.controller, result, step);
    CI.SettleKeeps(s.controller, result, step);
    CG.SettleExtends(s.controller, result, step);
    CG.SettleIsJustified(s.controller, result, step);
    forall id | id in s.controller.requests && s.controller.requests[id].stepId != ""
                && s.controller.requests[id].stepId != result.requestId
      ensures Owed(s.backend, rest, s.controller.requests[id].stepId)
    {
      OwedByOthers(s.backend, result, rest, s.controller.requests[id].stepId);
    }
    FewerSignalsKnown(s.controller.minted, s.backend, U.OperationFinished(result), rest);
    PerformKeeps(s, move, result.requestId, step, rest);
  }

  lemma FewerSignalsKnown(minted: set<Id>, b: U.Backend, signal: U.Signal, rest: seq<U.Signal>)
    requires StepsKnown(minted, b, [signal] + rest)
    ensures StepsKnown(minted, b, rest)
  {
    assert forall g :: g in rest ==> g in [signal] + rest;
  }

  lemma SnapshotHandled(s: System, drives: seq<Drive>, volumes: seq<Volume>, step: Id, rest: seq<U.Signal>)
    requires InvariantDuring(s, [U.SnapshotChanged(drives, volumes, true)] + rest)
    ensures InvariantDuring(Handle(s, U.SnapshotChanged(drives, volumes, true), step), rest)
    ensures CG.Extends(s.controller, Handle(s, U.SnapshotChanged(drives, volumes, true), step).controller)
    ensures Handle(s, U.SnapshotChanged(drives, volumes, true), step).controller.minted == s.controller.minted
  {
    hide CI.Scopes, CI.Conserved, CI.Traced, CI.Lists, UI.Invariant, CG.Justified, CG.RecordsGrow, CG.ResultsStay,
         CG.RetiredStay, StepsKnown;
    var signal := U.SnapshotChanged(drives, volumes, true);
    CI.TakeSnapshotKeeps(s.controller, drives, volumes, true);
    CG.TakeSnapshotExtends(s.controller, drives, volumes, true);
    FewerSignalsKnown(s.controller.minted, s.backend, signal, rest);
    var s' := Handle(s, signal, step);
    assert s'.controller.requests == s.controller.requests;
    forall x | Owed(s.backend, [signal] + rest, x) ensures Owed(s.backend, rest, x) {
      SnapshotOwesNothing(s.backend, signal, rest, x);
    }
  }

  lemma SnapshotOwesNothing(b: U.Backend, signal: U.Signal, rest: seq<U.Signal>, step: Id)
    requires Owed(b, [signal] + rest, step) && signal.SnapshotChanged?
    ensures Owed(b, rest, step)
  {
    if g :| g in [signal] + rest && g.OperationFinished? && g.result.requestId == step {
      assert g in rest;
    }
  }

  lemma {:induction false} AllHandled(s: System, signals: seq<U.Signal>, steps: seq<Id>)
    requires |steps| == |signals| && InvariantDuring(s, signals) && FreshSteps(s.controller, steps)
    requires forall g :: g in signals && g.SnapshotChanged? ==> g.available
    ensures Invariant(HandleAll(s, signals, steps))
    ensures CG.Extends(s.controller, HandleAll(s, signals, steps).controller)
    ensures SameTable(s, HandleAll(s, signals, steps))
    decreases |signals|
  {
    hide Linked, StepsKnown, StaleCallsRetired, LogJustified, UI.Invariant, CI.Scopes, CI.Conserved, CI.Traced, CI.Lists,
         CG.RecordsGrow, CG.ResultsStay, CG.RetiredStay;
    if signals == [] {
      CG.ExtendsItself(s.controller);
    } else {
      assert signals == [signals[0]] + signals[1..];
      match signals[0] {
        case SnapshotChanged(drives, volumes, available) =>
          assert signals[0] in signals;
          SnapshotHandled(s, drives, volumes, steps[0], signals[1..]);
        case OperationFinished(result) => ResultHandled(s, result, steps[0], signals[1..]);
      }
      var s' := Handle(s, signals[0], steps[0]);
      assert FreshSteps(s'.controller, steps[1..]);
      AllHandled(s', signals[1..], steps[1..]);
      CG.ExtendsTransitive(s.controller, s'.controller, HandleAll(s, signals, steps).controller);
    }
  }

  /** An unavailable snapshot retires every request, so it does not matter which answers the backend just dropped. */
  lemma WithdrawalHandled(s: System)
    requires CI.Invariant(s.controller) && UI.Invariant(s.backend) && LogJustified(s)
    requires StepsKnown(s.controller.minted, s.backend, [])
    ensures Invariant(s.(controller := C.TakeSnapshot(s.controller, [], [], false)))
    ensures C.TakeSnapshot(s.controller, [], [], false).requests == map[]
    ensures CG.Extends(s.controller, C.TakeSnapshot(s.controller, [], [], false))
  {
    hide CI.Invariant, UI.Invariant, CG.Justified, CG.Extends, RecordModel.Reconciled;
    CI.TakeSnapshotKeeps(s.controller, [], [], false);
    CG.TakeSnapshotExtends(s.controller, [], [], false);
  }

  // ---------------------------------------------------------------- every step

  lemma BackendStepKeeps(s: System, b': U.Backend)
    requires Invariant(s) && UI.Invariant(b')
    requires forall step :: Owed(s.backend, [], step) ==> Owed(b', [], step)
    requires StepsKnown(s.controller.minted, b', [])
    requires b'.refresh.generation == s.backend.refresh.generation && b'.operations.Keys <= s.backend.operations.Keys
    requires forall t :: t in b'.operations ==> b'.operations[t] == s.backend.operations[t]
    ensures Invariant(s.(backend := b')) && CG.Extends(s.controller, s.controller)
  {
    hide CI.Invariant, UI.Invariant, Owed, StepsKnown, CG.Justified, CG.Retired;
    CG.ExtendsItself(s.controller);
  }

  lemma OperationAnsweredLinks(b: U.Backend, t: nat, reply: U.OperationReply, minted: set<Id>)
    requires t in b.operations && StepsKnown(minted, b, [])
    ensures var b' := U.OperationAnswered(b, t, reply);
            && StepsKnown(minted, b', [])
            && b'.refresh.generation == b.refresh.generation
            && b'.operations == b.operations - {t}
            && (forall step :: Owed(b, [], step) ==> Owed(b', [], step))
  {
    var b' := U.OperationAnswered(b, t, reply);
    var call := b.operations[t];
    if call.generation == b.refresh.generation {
      var completion := U.Completion(U.Checked(U.ResultOf(call.result, reply), b.ids), b.refresh.clock);
      assert b'.completions == b.completions + [completion];
      assert completion in b'.completions && completion.result.requestId == call.result.requestId;
    }
    forall step | Owed(b, [], step) ensures Owed(b', [], step) {
      if u :| u in b.operations && b.operations[u].generation == b.refresh.generation
              && b.operations[u].result.requestId == step {
        if u != t { assert u in b'.operations && b'.operations[u] == b.operations[u]; }
      } else if c :| c in b.completions && c.result.requestId == step {
        assert c in b'.completions;
      }
    }
  }

  lemma ChangeLinks(b: U.Backend, ids: map<U.Key, Id>)
    ensures var b' := U.Changed(b.(ids := ids));
            && b'.refresh.generation == b.refresh.generation && b'.operations == b.operations
            && (forall minted :: StepsKnown(minted, b, []) ==> StepsKnown(minted, b', []))
            && (forall step :: Owed(b, [], step) ==> Owed(b', [], step))
  {
  }

  /** Before the first signal of a publication, everything the backend handed over is in the signals. */
  lemma PublicationLinks(s: System, t: nat, reply: Option<seq<U.Object>>, uuids: map<U.Key, Id>)
    requires Invariant(s) && t in s.backend.refresh.calls
    requires reply.Some? ==> L.FreshFor(s.backend.ids, s.backend.drawn, U.Live(reply.value), uuids)
    requires !R.VerdictOn(s.backend.refresh, t, reply.Some?).Failed?
    ensures var m := U.Answered(s.backend, t, reply, uuids);
            InvariantDuring(s.(backend := m.state), m.signals)
  {
    hide CI.Invariant, UI.Invariant, CG.Justified, CG.Retired, U.Published, L.IdsAfter, U.Delivered;
    UI.AnsweredKeeps(s.backend, t, reply, uuids);
    var m := U.Answered(s.backend, t, reply, uuids);
    assert m.state.operations == s.backend.operations && m.state.immediate == s.backend.immediate;
    if R.VerdictOn(s.backend.refresh, t, reply.Some?).Published? {
      DeliveredCoversCompletions(s.backend.completions, m.state.ids, m.signals, s.controller.minted);
    }
  }

  lemma DeliveredCoversCompletions(completions: seq<U.Completion>, ids: map<U.Key, Id>, signals: seq<U.Signal>,
                                   minted: set<Id>)
    requires |signals| == |completions| + 1 && signals[0].SnapshotChanged? && signals[1..] == U.Delivered(completions, ids)
    ensures forall c :: c in completions ==>
              exists g :: g in signals && g.OperationFinished? && g.result.requestId == c.result.requestId
    ensures (forall c :: c in completions ==> c.result.requestId in minted) ==>
              forall g :: g in signals && g.OperationFinished? ==> g.result.requestId in minted
  {
    forall i | 0 <= i < |completions|
      ensures signals[i + 1] in signals && signals[i + 1] == U.OperationFinished(U.Checked(completions[i].result, ids))
    {
      assert signals[i + 1] == signals[1..][i];
    }
  }

  /** What one event preserves across controller and backend. */
  ghost predicate Continues(s: System, s': System) {
    && CG.Extends(s.controller, s'.controller)
    && UI.LifetimesRespected(s.backend, s'.backend)
    && s.log <= s'.log
  }

  lemma BeginStep(s: System, id: Id, operation: Operation, targetId: Id, confirmed: seq<Id>)
    requires Invariant(s) && id != "" && id !in s.controller.minted
    ensures var s' := s.(controller := C.Begin(s.controller, id, operation, targetId, confirmed));
            Invariant(s') && CG.Extends(s.controller, s'.controller)
  {
    hide CI.Scopes, CI.Traced, CI.Lists, UI.Invariant, Owed, CG.Justified, C.Refusal, C.ScopeFor, C.UnmountsFor, CG.Retired,
         CG.RecordsGrow, CG.ResultsStay;
    CI.BeginKeeps(s.controller, id, operation, targetId, confirmed);
    CG.BeginExtends(s.controller, id, operation, targetId, confirmed);
    var c' := C.Begin(s.controller, id, operation, targetId, confirmed);
    KnownGrows(s.controller.minted, c'.minted, s.backend, []);
    assert "" !in s.controller.minted;
  }

  lemma DequeueStep(s: System, id: Id, step: Id)
    requires Invariant(s) && id in s.controller.queued && step != "" && step !in s.controller.minted
    ensures var s' := Perform(s, C.Dequeue(s.controller, id, step));
            Invariant(s') && CG.Extends(s.controller, s'.controller)
  {
    hide CI.Scopes, CI.Conserved, CI.Traced, CI.Lists, UI.Invariant, Owed, StaleCallsRetired, LogJustified, CG.Justified,
         CG.RecordsGrow, CG.ResultsStay, CG.RetiredStay, C.Dequeue;
    DequeueAccounts(s.controller, id, step);
    CI.DequeueKeeps(s.controller, id, step);
    CG.DequeueExtends(s.controller, id, step);
    CG.DequeueIsJustified(s.controller, id, step);
    PerformKeeps(s, C.Dequeue(s.controller, id, step), "", step, []);
  }

  lemma WithdrawStep(s: System, m: U.Outcome)
    requires Invariant(s) && UI.Invariant(m.state) && m.signals == [U.WITHDRAWN]
    requires StepsKnown(s.controller.minted, m.state, [])
    ensures Invariant(Withdraw(s, m)) && CG.Extends(s.controller, Withdraw(s, m).controller)
    ensures Withdraw(s, m).controller.requests == map[]
  {
    hide CI.Invariant, UI.Invariant, CG.Extends, Linked, StaleCallsRetired, StepsKnown, CG.Justified;
    WithdrawalHandled(s.(backend := m.state));
  }

  lemma SnapshotAnsweredStep(s: System, t: nat, reply: Option<seq<U.Object>>, uuids: map<U.Key, Id>, steps: seq<Id>)
    requires Invariant(s) && Enabled(s, SnapshotAnswered(t, reply, uuids, steps))
    ensures var m := U.Answered(s.backend, t, reply, uuids);
            && Invariant(After(s, m, steps))
            && CG.Extends(s.controller, After(s, m, steps).controller)
            && SameTable(s.(backend := m.state), After(s, m, steps))
            && (m.signals == [U.WITHDRAWN] ==>
                  After(s, m, steps).controller.requests == map[] && After(s, m, steps).backend == m.state)
  {
    hide CI.Scopes, CI.Conserved, CI.Traced, CI.Lists, UI.Invariant, Linked, StaleCallsRetired, CG.Justified, CG.Extends,
         U.Published, L.IdsAfter;
    var m := U.Answered(s.backend, t, reply, uuids);
    var s' := s.(backend := m.state);
    if R.VerdictOn(s.backend.refresh, t, reply.Some?).Failed? {
      UI.AnsweredKeeps(s.backend, t, reply, uuids);
      WithdrawalHandled(s');
      assert HandleAll(s', m.signals, steps) == Handle(s', m.signals[0], steps[0]);
    } else {
      PublicationLinks(s, t, reply, uuids);
      PublicationIsAvailable(s.backend, t, reply, uuids);
      AllHandled(s', m.signals, steps);
    }
  }

  lemma PublicationIsAvailable(b: U.Backend, t: nat, reply: Option<seq<U.Object>>, uuids: map<U.Key, Id>)
    requires t in b.refresh.calls && !R.VerdictOn(b.refresh, t, reply.Some?).Failed?
    requires reply.Some? ==> uuids.Keys == U.Live(reply.value) - b.ids.Keys
    ensures var m := U.Answered(b, t, reply, uuids);
            m.signals != [U.WITHDRAWN] && forall g :: g in m.signals && g.SnapshotChanged? ==> g.available
  {
    hide U.Published, L.IdsAfter;
    var signals := U.Answered(b, t, reply, uuids).signals;
    assert signals != [] ==> signals[0].SnapshotChanged? && signals[0].available;
    assert [U.WITHDRAWN][0] == U.WITHDRAWN && !U.WITHDRAWN.available;
  }

  lemma ExpireOwes(b: U.Backend, result: Result)
    requires result in b.immediate
    ensures var m := U.Expire(b, result);
            && m.signals == [U.OperationFinished(result)]
            && forall x :: Owed(b, [], x) ==> Owed(m.state, m.signals, x)
  {
    var m := U.Expire(b, result);
    forall x | Owed(b, [], x) ensures Owed(m.state, m.signals, x) {
      if r :| r in b.immediate && r.requestId == x {
        assert r == result || r in m.state.immediate;
      }
    }
  }

  lemma ExpireStep(s: System, result: Result, step: Id)
    requires Invariant(s) && Enabled(s, Expire(result, step))
    ensures var m := U.Expire(s.backend, result);
            && Invariant(After(s, m, [step]))
            && CG.Extends(s.controller, After(s, m, [step]).controller)
            && SameTable(s.(backend := m.state), After(s, m, [step]))
  {
    hide CI.Invariant, CG.Justified, CG.Extends, CG.Retired, R.Invariant, UI.IdsSound;
    var m := U.Expire(s.backend, result);
    ExpireOwes(s.backend, result);
    hide Owed;
    AllHandled(s.(backend := m.state), m.signals, [step]);
  }

  lemma ShrinkingTableRespectsLifetimes(b: U.Backend, b': U.Backend)
    requires b'.drawn == b.drawn && forall k :: k in b'.ids ==> k in b.ids && b'.ids[k] == b.ids[k]
    ensures UI.LifetimesRespected(b, b')
  {
    forall d | d in b.drawn && !UI.LiveId(b, d.1) ensures !UI.LiveId(b', d.1) {}
  }
}
