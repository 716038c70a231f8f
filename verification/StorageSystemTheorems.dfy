/** The promises of the storage component over whole runs. */
module StorageSystemTheorems {
  import opened Prelude
  import opened StorageTypes
  import opened StorageSystem
  import opened StorageSystemInvariant
  import C = ControllerSpec
  import CI = ControllerInvariant
  import CG = ControllerGuarantees
  import U = UDisksSpec
  import UI = UDisksInvariant
  import R = RefreshProtocol

  lemma ControllerEventKeeps(s: System, e: Event)
    requires Invariant(s) && (e.Begin? || e.Dequeue?)
    ensures Invariant(Step(s, e)) && Continues(s, Step(s, e))
  {
    hide CI.Scopes, CI.Conserved, CI.Traced, CI.Lists, UI.Invariant, Linked, StepsKnown, StaleCallsRetired, LogJustified,
         CG.Extends, C.Begin, C.Dequeue;
    if Enabled(s, e) {
      match e {
        case Begin(id, operation, targetId, confirmed) => BeginStep(s, id, operation, targetId, confirmed);
        case Dequeue(id, step) =>
          assert FreshSteps(s.controller, [step]) && [step][0] == step;
          DequeueStep(s, id, step);
      }
    } else {
      CG.ExtendsItself(s.controller);
    }
    ShrinkingTableRespectsLifetimes(s.backend, Step(s, e).backend);
  }

  lemma QuietEventKeeps(s: System, e: Event)
    requires Invariant(s) && (e.Start? || e.SomethingChanged? || e.InterfacesRemoved? || e.OperationAnswered?)
    ensures Invariant(Step(s, e)) && Continues(s, Step(s, e))
  {
    hide CI.Invariant, Linked, StaleCallsRetired, LogJustified, CG.Extends, Owed, StepsKnown, R.Invariant, UI.IdsSound,
         UI.CallsSound;
    CG.ExtendsItself(s.controller);
    if Enabled(s, e) {
      match e {
        case Start =>
          UI.StartKeeps(s.backend);
          StartLinks(s.backend);
        case SomethingChanged =>
          UI.ChangeKeeps(s.backend);
          ChangeLinks(s.backend, s.backend.ids);
          assert s.backend.(ids := s.backend.ids) == s.backend;
        case InterfacesRemoved(path, interfaces) =>
          UI.RemovedKeeps(s.backend, path, interfaces);
          ChangeLinks(s.backend, s.backend.ids - U.KeysAt(path, interfaces));
        case OperationAnswered(t, reply) =>
          UI.OperationAnsweredKeeps(s.backend, t, reply);
          OperationAnsweredLinks(s.backend, t, reply, s.controller.minted);
      }
      BackendStepKeeps(s, Step(s, e).backend);
    }
    ShrinkingTableRespectsLifetimes(s.backend, Step(s, e).backend);
  }

  lemma StartLinks(b: U.Backend)
    ensures var b' := U.Start(b);
            && b'.refresh.generation == b.refresh.generation && b'.operations == b.operations
            && (forall minted :: StepsKnown(minted, b, []) ==> StepsKnown(minted, b', []))
            && (forall step :: Owed(b, [], step) ==> Owed(b', [], step))
  {
  }

  /** Owner events, a finished GetNameOwner call and stop either change nothing or withdraw everything. */
  lemma OwnerEventKeeps(s: System, e: Event)
    requires Invariant(s) && (e.NameAnswered? || e.OwnerChanged? || e.Stop?)
    ensures Invariant(Step(s, e)) && Continues(s, Step(s, e))
  {
    hide CI.Invariant, Linked, StaleCallsRetired, LogJustified, CG.Extends, Owed, R.Invariant, UI.IdsSound, UI.CallsSound;
    CG.ExtendsItself(s.controller);
    if Enabled(s, e) {
      var m := match e
        case NameAnswered(generation, reply) => U.NameAnswered(s.backend, generation, reply)
        case OwnerChanged(owner) => U.OwnerChanged(s.backend, owner)
        case _ => U.Stop(s.backend);
      OwnerOutcome(s.backend, e);
      assert StepsKnown(s.controller.minted, m.state, []);
      if m.signals == [] {
        SameAnswersOwed(s.backend, m.state);
        BackendStepKeeps(s, m.state);
      } else {
        WithdrawStep(s, m);
      }
      ShrinkingTableRespectsLifetimes(s.backend, m.state);
    } else {
      ShrinkingTableRespectsLifetimes(s.backend, s.backend);
    }
  }

  lemma OwnerOutcome(b: U.Backend, e: Event)
    requires UI.Invariant(b) && (e.NameAnswered? || e.OwnerChanged? || e.Stop?)
    ensures var m := match e
                     case NameAnswered(generation, reply) => U.NameAnswered(b, generation, reply)
                     case OwnerChanged(owner) => U.OwnerChanged(b, owner)
                     case _ => U.Stop(b);
            && UI.Invariant(m.state)
            && m.state.drawn == b.drawn && m.state.operations == b.operations && m.state.immediate == b.immediate
            && (m.state.ids == b.ids || m.state.ids == map[])
            && (m.state.completions == b.completions || m.state.completions == [])
            && (m.signals == [U.WITHDRAWN] || (m.signals == [] && m.state.refresh == b.refresh
                                                && m.state.completions == b.completions))
  {
    hide R.Invariant, UI.IdsSound, UI.CallsSound;
    match e
    case NameAnswered(generation, reply) => UI.NameAnsweredKeeps(b, generation, reply);
    case OwnerChanged(owner) => if b.refresh.started { UI.SetOwnerKeeps(b, owner); }
    case _ => UI.StopKeeps(b);
  }

  lemma SameAnswersOwed(b: U.Backend, b': U.Backend)
    requires b'.operations == b.operations && b'.immediate == b.immediate && b'.completions == b.completions
    requires b'.refresh == b.refresh
    ensures forall step :: Owed(b, [], step) ==> Owed(b', [], step)
  {
  }

  lemma SignallingEventKeeps(s: System, e: Event)
    requires Invariant(s) && (e.SnapshotAnswered? || e.Expire?)
    ensures Invariant(Step(s, e)) && Continues(s, Step(s, e))
  {
    hide CI.Invariant, Linked, StaleCallsRetired, LogJustified, CG.Extends, Owed, StepsKnown, R.Invariant, UI.CallsSound;
    CG.ExtendsItself(s.controller);
    ShrinkingTableRespectsLifetimes(s.backend, s.backend);
    if Enabled(s, e) {
      match e {
        case SnapshotAnswered(t, reply, uuids, steps) =>
          SnapshotAnsweredStep(s, t, reply, uuids, steps);
          UI.AnsweredRespectsLifetimes(s.backend, t, reply, uuids);
          var b' := U.Answered(s.backend, t, reply, uuids).state;
          assert forall id :: UI.LiveId(Step(s, e).backend, id) <==> UI.LiveId(b', id);
        case Expire(result, step) =>
          ExpireStep(s, result, step);
          ShrinkingTableRespectsLifetimes(s.backend, Step(s, e).backend);
      }
    }
  }

  lemma StepKeeps(s: System, e: Event)
    requires Invariant(s)
    ensures Invariant(Step(s, e)) && Continues(s, Step(s, e))
  {
    hide Invariant, Continues, Step;
    match e
    case Begin(_, _, _, _) => ControllerEventKeeps(s, e);
    case Dequeue(_, _) => ControllerEventKeeps(s, e);
    case Start => QuietEventKeeps(s, e);
    case NameAnswered(_, _) => OwnerEventKeeps(s, e);
    case OwnerChanged(_) => OwnerEventKeeps(s, e);
    case SomethingChanged => QuietEventKeeps(s, e);
    case InterfacesRemoved(_, _) => QuietEventKeeps(s, e);
    case SnapshotAnswered(_, _, _, _) => SignallingEventKeeps(s, e);
    case OperationAnswered(_, _) => QuietEventKeeps(s, e);
    case Expire(_, _) => SignallingEventKeeps(s, e);
    case Stop => OwnerEventKeeps(s, e);
  }

  lemma {:induction false} EveryRunKeepsInvariant(service: string, events: seq<Event>)
    ensures Invariant(Run(service, events))
  {
    hide Step;
    if events == [] {
      UI.InitialHolds(service);
    } else {
      EveryRunKeepsInvariant(service, events[..|events| - 1]);
      StepKeeps(Run(service, events[..|events| - 1]), events[|events| - 1]);
    }
  }

  // ---------------------------------------------------------------- the promises

  /** Some snapshot call of the current generation is in flight. */
  ghost predicate RefreshUnderWay(b: U.Backend) {
    b.refresh.refreshing && exists t :: R.Current(b.refresh, t)
  }

  /**
   Nothing is orphaned: a pending request waits for its queued callback, or for an operation call of the current
   generation, or for a result held back while a refresh is under way, or for a failure queued in the event loop.
   */
  lemma NoRequestIsOrphaned(service: string, events: seq<Event>, id: Id)
    requires id in Run(service, events).controller.requests
    ensures var s := Run(service, events);
            var step := s.controller.requests[id].stepId;
            if step == "" then id in s.controller.queued
            else || (exists t :: t in s.backend.operations && s.backend.operations[t].result.requestId == step
                                 && s.backend.operations[t].generation == s.backend.refresh.generation)
                 || (RefreshUnderWay(s.backend)
                     && exists c :: c in s.backend.completions && c.result.requestId == step)
                 || (exists r :: r in s.backend.immediate && r.requestId == step)
  {
    EveryRunKeepsInvariant(service, events);
    var s := Run(service, events);
    hide Run, CI.Scopes, CI.Conserved, CI.Traced, CI.Lists, UI.IdsSound, StaleCallsRetired, LogJustified, StepsKnown;
    if s.controller.requests[id].stepId != "" {
      assert Owed(s.backend, [], s.controller.requests[id].stepId);
    }
  }

  /** Dropped answers had no one waiting: late replies of an earlier generation belong to retired steps. */
  lemma StaleRepliesHaveNoWaiter(service: string, events: seq<Event>, t: nat)
    requires t in Run(service, events).backend.operations
    requires Run(service, events).backend.operations[t].generation != Run(service, events).backend.refresh.generation
    ensures CG.Retired(Run(service, events).controller, Run(service, events).backend.operations[t].result.requestId)
  {
    EveryRunKeepsInvariant(service, events);
  }

  /** Where results are thrown away (owner change, stop, failed refresh), the unavailable snapshot of the same event finishes every request. */
  lemma DroppingAnswersRetiresRequests(service: string, events: seq<Event>, e: Event)
    requires var s := Run(service, events);
             && Enabled(s, e)
             && ((e.OwnerChanged? && s.backend.refresh.started)
                 || (e.NameAnswered? && s.backend.refresh.started && e.generation == s.backend.refresh.generation
                     && !e.name.OtherError?)
                 || (e.Stop? && s.backend.refresh.started)
                 || (e.SnapshotAnswered? && R.VerdictOn(s.backend.refresh, e.at, e.objects.Some?).Failed?))
    ensures Step(Run(service, events), e).controller.requests == map[]
    ensures Step(Run(service, events), e).backend.completions == []
  {
    hide CI.Invariant, Linked, StaleCallsRetired, LogJustified, CG.Extends, Owed, StepsKnown, R.Invariant, UI.CallsSound,
         UI.IdsSound;
    EveryRunKeepsInvariant(service, events);
    var s := Run(service, events);
    match e
    case OwnerChanged(owner) =>
    case NameAnswered(generation, name) =>
    case Stop =>
    case SnapshotAnswered(t, reply, uuids, steps) => SnapshotAnsweredStep(s, t, reply, uuids, steps);
  }

  /** Whatever happens later: records only grow, closed requests and their results are frozen, IDs stay retired. */
  lemma {:induction false} LaterEventsContinue(service: string, events: seq<Event>, more: seq<Event>)
    ensures Continues(Run(service, events), Run(service, events + more))
  {
    hide Step, CG.Extends, UI.LifetimesRespected, Invariant;
    if more == [] {
      assert events + more == events;
      CG.ExtendsItself(Run(service, events).controller);
      ShrinkingTableRespectsLifetimes(Run(service, events).backend, Run(service, events).backend);
    } else {
      var init, last := more[..|more| - 1], more[|more| - 1];
      assert (events + more)[..|events + more| - 1] == events + init && (events + more)[|events + more| - 1] == last;
      LaterEventsContinue(service, events, init);
      EveryRunKeepsInvariant(service, events + init);
      StepKeeps(Run(service, events + init), last);
      ContinuesTransitive(Run(service, events), Run(service, events + init), Run(service, events + more));
    }
  }

  lemma ContinuesTransitive(a: System, b: System, c: System)
    requires Continues(a, b) && Continues(b, c)
    ensures Continues(a, c)
  {
    hide CG.Extends;
    CG.ExtendsTransitive(a.controller, b.controller, c.controller);
  }

  /** A lifetime ID that was drawn and has left the table is never published again. */
  lemma RetiredIdsNeverReturn(service: string, events: seq<Event>, more: seq<Event>, key: U.Key, id: Id)
    requires (key, id) in Run(service, events).backend.drawn && !UI.LiveId(Run(service, events).backend, id)
    ensures !UI.LiveId(Run(service, events + more).backend, id)
  {
    hide CG.Extends;
    LaterEventsContinue(service, events, more);
    assert (key, id).1 == id;
  }

  /** In a whole run no two object interfaces are ever given the same ID. */
  lemma IdsAreNeverShared(service: string, events: seq<Event>, key: U.Key, key': U.Key, id: Id)
    requires (key, id) in Run(service, events).backend.drawn && (key', id) in Run(service, events).backend.drawn
    ensures key == key'
  {
    EveryRunKeepsInvariant(service, events);
    assert (key, id).1 == (key', id).1;
  }

  /**
   The commands sent for a request are a prefix of the plan fixed when it began, each after the success of the one
   before, and once the request is closed nothing more is ever sent for it.
   */
  lemma CommandsArePrefixOfPlan(service: string, events: seq<Event>, more: seq<Event>, id: Id)
    requires id in Run(service, events).controller.traces
    ensures var now, later := Run(service, events).controller, Run(service, events + more).controller;
            && CI.Prefix(now.traces[id])
            && id in later.traces && CG.Grows(now.traces[id], later.traces[id])
            && (id !in now.requests ==> id !in later.requests && later.traces[id] == now.traces[id])
  {
    EveryRunKeepsInvariant(service, events);
    LaterEventsContinue(service, events, more);
  }

  /** Each begun request is pending or was reported exactly once; a report is never replaced. */
  lemma ReportedExactlyOnce(service: string, events: seq<Event>, more: seq<Event>, id: Id)
    requires id in Run(service, events).controller.traces
    ensures var now, later := Run(service, events).controller, Run(service, events + more).controller;
            && now.finished[id] == (if id in now.requests then 0 else 1)
            && (id in now.results <==> id !in now.requests)
            && (id in now.results ==> id in later.results && later.results[id] == now.results[id])
  {
    EveryRunKeepsInvariant(service, events);
    LaterEventsContinue(service, events, more);
  }

  /**
   Every command ever handed to the backend continues its request's plan; an Eject or PowerOff found the scope fixed
   at begin (for PowerOff the sorted confirmed one) unchanged, the drive capable, and nothing on it mounted.
   */
  lemma EveryCommandIsJustified(service: string, events: seq<Event>, i: nat) returns (id: Id)
    requires i < |Run(service, events).log|
    ensures var d := Run(service, events).log[i];
            && C.Awaits(d.controller.requests, id, d.command.stepId)
            && id in d.controller.traces && CG.JustifiedFor(d.controller, id, d.command)
            && (d.command.operation.Removal() ==> CG.SafeRemoval(d.controller, d.controller.traces[id], d.command))
  {
    EveryRunKeepsInvariant(service, events);
    var d := Run(service, events).log[i];
    assert CG.Justified(d.controller, d.command);
    id :| C.Awaits(d.controller.requests, id, d.command.stepId) && id in d.controller.traces
          && CG.JustifiedFor(d.controller, id, d.command);
  }

  /**
   Every command ever handed to the backend was one its target was fit for: a drive that can be ejected for Eject, one
   that can be powered off for PowerOff, a volume that is there for Mount and Unmount and, when a removal unmounts it, can
   be unmounted.
   */
  lemma EveryCommandWasAllowed(service: string, events: seq<Event>, i: nat)
    requires i < |Run(service, events).log|
    ensures var d := Run(service, events).log[i];
            match d.command.operation
            case Eject => exists drive :: drive in d.controller.drives && drive.id == d.command.targetId && drive.canEject
            case PowerOff => exists drive :: drive in d.controller.drives && drive.id == d.command.targetId && drive.canPowerOff
            case _ =>
              exists id, v :: C.Awaits(d.controller.requests, id, d.command.stepId)
                              && v in d.controller.volumes && v.id == d.command.targetId
                              && (d.controller.requests[id].operation in {Eject, PowerOff} ==> v.canUnmount)
  {
    var id := EveryCommandIsJustified(service, events, i);
    var d := Run(service, events).log[i];
    hide Run;
    if d.command.operation.Removal() {
      var drive := C.FindDrive(d.controller.drives, d.command.targetId).value;
      assert drive in d.controller.drives && drive.id == d.command.targetId;
    }
  }

  /** Scopes of pending requests are disjoint, so a busy target has exactly one holder; none while unavailable. */
  lemma OneHolderPerTarget(service: string, events: seq<Event>, target: Id)
    ensures var c := Run(service, events).controller;
            && |CG.Holders(c, target)| == (if C.Busy(c.requests, target) then 1 else 0)
            && (!c.available ==> !C.Busy(c.requests, target))
  {
    EveryRunKeepsInvariant(service, events);
    CG.BusyMeansOneHolder(Run(service, events).controller, target);
  }

  /** A reply to a step that was answered before, or whose request is gone, changes nothing at any later time. */
  lemma LateRepliesChangeNothing(service: string, events: seq<Event>, more: seq<Event>, result: Result, step: Id)
    requires result.requestId != "" && CG.Retired(Run(service, events).controller, result.requestId)
    ensures CG.Retired(Run(service, events + more).controller, result.requestId)
    ensures Run(service, events + more).controller.requests.Keys <= Run(service, events + more).controller.traces.Keys
    ensures Handle(Run(service, events + more), U.OperationFinished(result), step) == Run(service, events + more)
  {
    hide CI.Scopes, CI.Conserved, CI.Traced, CI.Lists, UI.Invariant, Linked, StaleCallsRetired, LogJustified, StepsKnown;
    LaterEventsContinue(service, events, more);
    EveryRunKeepsInvariant(service, events + more);
    CG.RetiredReplyChangesNothing(Run(service, events + more).controller, result, step);
  }

  /** Every operation call in flight went to the one object interface that its target's ID was ever made for. */
  lemma CallsGoToTheirTarget(service: string, events: seq<Event>, t: nat, key: U.Key)
    requires t in Run(service, events).backend.operations
    requires (key, Run(service, events).backend.operations[t].result.targetId) in Run(service, events).backend.drawn
    ensures var call := Run(service, events).backend.operations[t];
            key == U.Key(call.path, U.InterfaceFor(call.result.operation))
  {
    EveryRunKeepsInvariant(service, events);
    var s := Run(service, events);
    hide Run, CI.Invariant, Linked, StaleCallsRetired, LogJustified, StepsKnown, R.Invariant;
    var call := s.backend.operations[t];
    assert UI.Addressed(s.backend.drawn, call);
    assert (key, call.result.targetId).1 == (U.Key(call.path, U.InterfaceFor(call.result.operation)), call.result.targetId).1;
  }

  /** What UI.ResultsFollowFreshTopology says holds of every publication of every run. */
  lemma ResultsFollowFreshTopology(service: string, events: seq<Event>, e: Event, i: nat)
    requires e.SnapshotAnswered? && Enabled(Run(service, events), e)
    requires i < |U.Answered(Run(service, events).backend, e.at, e.objects, e.uuids).signals|
    requires U.Answered(Run(service, events).backend, e.at, e.objects, e.uuids).signals[i].OperationFinished?
    ensures var b := Run(service, events).backend;
            var signals := U.Answered(b, e.at, e.objects, e.uuids).signals;
            var result := signals[i].result;
            && signals[0].SnapshotChanged? && signals[0].available
            && (exists c :: c in b.completions && result.requestId == c.result.requestId && c.arrivedAt < e.at)
            && (result.operation.Mount? && result.Succeeded() ==>
                  exists v :: v in signals[0].volumes && v.id == result.targetId)
  {
    hide CI.Invariant, Linked, StaleCallsRetired, LogJustified, StepsKnown;
    EveryRunKeepsInvariant(service, events);
    UI.ResultsFollowFreshTopology(Run(service, events).backend, e.at, e.objects, e.uuids, i);
  }

  /** UDisks2Backend as an instance of the refresh protocol. */
  lemma UDisksRefreshIsFaithful(service: string, events: seq<Event>)
    ensures R.Faithful(Run(service, events).backend.refresh)
  {
    EveryRunKeepsInvariant(service, events);
    R.InvariantIsFaithful(Run(service, events).backend.refresh);
  }
}
