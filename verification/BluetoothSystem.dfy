/**
 The pairing agent inside BlueZBackend: owner changes, snapshots and stop reach the agent as the backend passes them on,
 and the agent asks the backend to resolve paths it does not know.
 */
module BluetoothSystem {
  import opened Prelude
  import A = AgentSpec
  import B = BlueZSpec
  import G = BlueZGuarantees
  import L = LifetimeIds
  import R = RefreshProtocol

  datatype System = System(agent: A.Agent, backend: B.Backend)

  /** `order` is how the agent's hash of pending interactions is traversed, where it is. */
  datatype Event =
    | Quiet(event: B.Event)
    | OwnerSet(event: B.Event, order: seq<Id>)
    | Snapshot(at: nat, objects: Option<seq<B.Object>>, uuids: map<string, Id>, order: seq<Id>)
    | Stopped(order: seq<Id>)
    | Asks(caller: string, call: A.Call, uuid: Id)
    | Cancels(caller: string, order: seq<Id>)
    | Clears(order: seq<Id>)
    | Responds(id: Id, accept: bool, input: string)

  function Initial(): System {
    System(A.Initial(), B.Initial())
  }

  /** The owner that a backend event sets, if it sets one. */
  ghost function NewOwner(b: B.Backend, e: B.Event): Option<string> {
    match e
    case NameReply(generation, reply) =>
      if b.refresh.started && generation == b.refresh.generation then Some(if reply.Some? then reply.value else "") else None
    case OwnerChanges(owner) => if b.refresh.started then Some(owner) else None
    case _ => None
  }

  /** Events that concern the backend alone. */
  predicate ConcernsBackend(e: B.Event) {
    e.Starts? || e.Signal? || e.Removal? || e.OperationReply?
  }

  /** The device the resolver answers with for a path. */
  function ResolvedTo(b: B.Backend, path: string, uuid: Id): Id {
    if path in b.ids then b.ids[path] else uuid
  }

  ghost predicate Enabled(s: System, e: Event) {
    match e
    case Quiet(event) => ConcernsBackend(event) && B.Enabled(s.backend, event)
    case OwnerSet(event, order) =>
      (event.NameReply? || event.OwnerChanges?) && B.Enabled(s.backend, event) && A.Enumerates(order, s.agent.pending.Keys)
    case Snapshot(t, objects, uuids, order) =>
      B.Enabled(s.backend, B.SnapshotReply(t, objects, uuids)) && A.Enumerates(order, s.agent.pending.Keys)
    case Stopped(order) => A.Enumerates(order, s.agent.pending.Keys)
    case Asks(_, call, uuid) =>
      && call.id !in s.agent.minted && B.Unused(s.backend.drawn, uuid)
      && call.resolved == ResolvedTo(s.backend, call.path, uuid)
    case Cancels(_, order) => A.Enumerates(order, s.agent.pending.Keys)
    case Clears(order) => A.Enumerates(order, s.agent.pending.Keys)
    case Responds(_, _, _) => true
  }

  /** What the backend sees of an event. */
  ghost function BackendEvent(s: System, e: Event): Option<B.Event> {
    match e
    case Quiet(event) => Some(event)
    case OwnerSet(event, _) => Some(event)
    case Snapshot(t, objects, uuids, _) => Some(B.SnapshotReply(t, objects, uuids))
    case Stopped(_) => Some(B.Stops)
    case Asks(caller, call, uuid) => Some(B.AgentCall(caller, call.path, uuid))
    case _ => None
  }

  /** What the agent sees of an event, in order. */
  ghost function AgentEvents(s: System, e: Event): seq<A.Event>
    requires Enabled(s, e)
  {
    match e
    case Quiet(_) => []
    case OwnerSet(event, order) =>
      var owner := NewOwner(s.backend, event);
      if owner.Some? then [A.OwnerChanges(owner.value, order)] else []
    case Snapshot(t, objects, uuids, order) =>
      if G.Refreshes(s.backend, B.SnapshotReply(t, objects, uuids)) then
        [A.DevicesChange(B.Answered(s.backend, t, objects, uuids).agentDevices, order)]
      else []
    case Stopped(order) => if s.backend.refresh.started then [A.Clears(order), A.OwnerChanges("", [])] else []
    case Asks(caller, call, _) => [A.Asks(caller, call)]
    case Cancels(caller, order) => [A.Cancels(caller, order)]
    case Clears(order) => [A.Clears(order)]
    case Responds(id, accept, input) => [A.Responds(id, accept, input)]
  }

  ghost function PerformAll(a: A.Agent, events: seq<A.Event>): A.Agent {
    if events == [] then a else A.Step(PerformAll(a, events[..|events| - 1]), events[|events| - 1])
  }

  ghost function Step(s: System, e: Event): System {
    if !Enabled(s, e) then s
    else
      var event := BackendEvent(s, e);
      System(PerformAll(s.agent, AgentEvents(s, e)), if event.Some? then B.Step(s.backend, event.value) else s.backend)
  }

  ghost function Run(events: seq<Event>): System {
    if events == [] then Initial()
    else Step(Run(events[..|events| - 1]), events[|events| - 1])
  }

  // ---------------------------------------------------------------- agent and backend agree

  /** Both know the same owner, and the agent knows the devices the backend told it or resolved for it. */
  ghost predicate Coupled(s: System) {
    s.agent.owner == s.backend.refresh.owner && s.agent.devices == s.backend.agentDevices
  }

  ghost predicate Invariant(s: System) {
    A.Invariant(s.agent) && G.Invariant(s.backend) && Coupled(s)
  }

  lemma OneEvent(a: A.Agent, e: A.Event)
    ensures PerformAll(a, [e]) == A.Step(a, e) && PerformAll(a, []) == a
  {
    assert [e][..0] == [];
  }

  lemma TwoEvents(a: A.Agent, e: A.Event, f: A.Event)
    ensures PerformAll(a, [e, f]) == A.Step(A.Step(a, e), f)
  {
    assert [e, f][..1] == [e];
    OneEvent(a, e);
  }

  lemma {:induction false} PerformAllKeeps(a: A.Agent, events: seq<A.Event>)
    requires A.Invariant(a)
    ensures A.Invariant(PerformAll(a, events))
  {
    hide A.Invariant, A.Step;
    if events != [] {
      PerformAllKeeps(a, events[..|events| - 1]);
      A.StepKeeps(PerformAll(a, events[..|events| - 1]), events[|events| - 1]);
    }
  }

  lemma BackendStepKeeps(b: B.Backend, e: B.Event)
    requires G.Invariant(b)
    ensures G.Invariant(B.Step(b, e))
  {
    hide R.Invariant, L.Sound, G.AgentDrawn;
    G.StepKeepsIds(b, e);
    G.StepKeepsAgent(b, e);
    G.StepRefines(b, e);
    if B.Step(b, e).refresh != b.refresh {
      var p :| B.Step(b, e).refresh == R.Step(b.refresh, p);
      R.StepKeeps(b.refresh, p);
    }
  }

  // ---------------------------------------------------------------- owners and devices, event by event

  lemma DismissKeepsOwner(a: A.Agent, ids: seq<Id>)
    ensures A.DismissAll(a, ids).owner == a.owner && A.DismissAll(a, ids).devices == a.devices
  {
    if ids != [] { DismissKeepsOwner(a, ids[..|ids| - 1]); }
  }

  lemma DismissUnknownKeepsOwner(a: A.Agent, ids: seq<Id>)
    ensures A.DismissUnknown(a, ids).owner == a.owner && A.DismissUnknown(a, ids).devices == a.devices
  {
    if ids != [] { DismissUnknownKeepsOwner(a, ids[..|ids| - 1]); }
  }

  lemma OwnerSetCouples(s: System, event: B.Event, order: seq<Id>)
    requires Coupled(s) && Enabled(s, OwnerSet(event, order))
    ensures Coupled(Step(s, OwnerSet(event, order)))
  {
    hide A.DismissAll, A.Enumerates;
    var owner := NewOwner(s.backend, event);
    if owner.Some? {
      OneEvent(s.agent, A.OwnerChanges(owner.value, order));
      DismissKeepsOwner(s.agent, order);
    } else {
      OneEvent(s.agent, A.Clears([]));
    }
  }

  lemma SnapshotCouples(s: System, t: nat, objects: Option<seq<B.Object>>, uuids: map<string, Id>, order: seq<Id>)
    requires Coupled(s) && Enabled(s, Snapshot(t, objects, uuids, order))
    ensures Coupled(Step(s, Snapshot(t, objects, uuids, order)))
  {
    hide A.DismissUnknown, A.Enumerates, B.Live, B.AgentTable, B.SnapshotOf, L.FreshFor, L.IdsAfter;
    var c := B.Step(s.backend, B.SnapshotReply(t, objects, uuids));
    OneEvent(s.agent, A.DevicesChange(c.agentDevices, order));
    DismissUnknownKeepsOwner(s.agent.(devices := c.agentDevices), order);
  }

  lemma StoppedCouples(s: System, order: seq<Id>)
    requires Invariant(s) && Enabled(s, Stopped(order))
    ensures Coupled(Step(s, Stopped(order)))
  {
    hide A.Invariant, G.Invariant, A.DismissAll;
    TwoEvents(s.agent, A.Clears(order), A.OwnerChanges("", []));
    ClearedIsEmpty(s.agent, order);
    DismissKeepsOwner(s.agent, order);
    DismissKeepsOwner(A.DismissAll(s.agent, order), []);
    OneEvent(s.agent, A.Clears([]));
  }

  lemma ClearedIsEmpty(a: A.Agent, order: seq<Id>)
    requires A.Invariant(a) && A.Enumerates(order, a.pending.Keys)
    ensures A.DismissAll(a, order).pending == map[]
  {
    A.ClearEmpties(a, order);
  }

  lemma ChangedKeepsOwner(r: R.Refresh)
    ensures R.Changed(r).owner == r.owner && R.Changed(r).started == r.started
  {}

  /** The agent and its resolver learn the same device for the path. */
  lemma AsksCouples(s: System, caller: string, call: A.Call, uuid: Id)
    requires Invariant(s) && Enabled(s, Asks(caller, call, uuid))
    ensures Coupled(Step(s, Asks(caller, call, uuid)))
  {
    hide A.Invariant, R.Invariant;
    OneEvent(s.agent, A.Asks(caller, call));
    ChangedKeepsOwner(s.backend.refresh);
    AskLearns(s.agent, caller, call);
    ResolvedIsNamed(s.backend, call.path, uuid);
    hide A.Ask, R.Changed, L.Sound, B.Unused;
  }

  lemma ResolvedIsNamed(b: B.Backend, path: string, uuid: Id)
    requires L.Sound(b.ids, b.drawn) && B.Unused(b.drawn, uuid)
    ensures ResolvedTo(b, path, uuid) != ""
  {
    if path in b.ids { assert (path, b.ids[path]) in b.drawn; }
  }

  /** Whatever becomes of the call, the agent's owner stays, and an authorised call about an unknown path is resolved. */
  lemma AskLearns(a: A.Agent, caller: string, c: A.Call)
    ensures A.Ask(a, caller, c).owner == a.owner
    ensures A.Ask(a, caller, c).devices == if A.Authorized(a, caller) then A.Resolve(a, c.path, c.resolved).devices else a.devices
  {}

  lemma OtherCouples(s: System, e: Event)
    requires Coupled(s) && (e.Quiet? || e.Cancels? || e.Clears? || e.Responds?)
    ensures Coupled(Step(s, e))
  {
    hide A.DismissAll, A.Enumerates, R.Changed;
    if Enabled(s, e) {
      OneEvent(s.agent, if AgentEvents(s, e) == [] then A.Clears([]) else AgentEvents(s, e)[0]);
      match e {
        case Quiet(_) => ChangedKeepsOwner(s.backend.refresh);
        case Cancels(_, order) => DismissKeepsOwner(s.agent, order);
        case Clears(order) => DismissKeepsOwner(s.agent, order);
        case Responds(_, _, _) =>
      }
    }
  }

  lemma StepKeeps(s: System, e: Event)
    requires Invariant(s)
    ensures Invariant(Step(s, e))
  {
    if Enabled(s, e) {
      PerformAllKeeps(s.agent, AgentEvents(s, e));
      if BackendEvent(s, e).Some? {
        BackendStepKeeps(s.backend, BackendEvent(s, e).value);
      }
      StepCouples(s, e);
    }
    hide A.Invariant, G.Invariant, Coupled, PerformAll, B.Step;
  }

  lemma StepCouples(s: System, e: Event)
    requires Invariant(s) && Enabled(s, e)
    ensures Coupled(Step(s, e))
  {
    hide A.Invariant, G.Invariant, Coupled, Step, Enabled;
    match e {
      case OwnerSet(event, order) => OwnerSetCouples(s, event, order);
      case Snapshot(t, objects, uuids, order) => SnapshotCouples(s, t, objects, uuids, order);
      case Stopped(order) => StoppedCouples(s, order);
      case Asks(caller, call, uuid) => AsksCouples(s, caller, call, uuid);
      case _ => OtherCouples(s, e);
    }
  }

  lemma {:induction false} EveryRunKeepsInvariant(events: seq<Event>)
    ensures Invariant(Run(events))
  {
    if events == [] {
      G.InitialHolds();
    } else {
      hide Invariant, Step;
      EveryRunKeepsInvariant(events[..|events| - 1]);
      StepKeeps(Run(events[..|events| - 1]), events[|events| - 1]);
    }
  }

  // ---------------------------------------------------------------- what the agent shows

  /** Every pending interaction is about a device of the snapshot just published. */
  ghost predicate PendingAreShown(pending: map<Id, A.Entry>, snapshot: B.Snapshot) {
    forall id :: id in pending ==> exists d :: d in snapshot.devices && d.id == pending[id].request.device
  }

  /**
   In every run: right after a snapshot is published, every pending interaction names a device of that very snapshot, and
   exactly the interactions of such devices are still pending.
   */
  lemma PublishedSnapshotCoversPending(events: seq<Event>, t: nat, objects: seq<B.Object>, uuids: map<string, Id>, order: seq<Id>)
    requires var s := Run(events);
             Enabled(s, Snapshot(t, Some(objects), uuids, order)) && R.VerdictOn(s.backend.refresh, t, true).Published?
    ensures var s, s' := Run(events), Step(Run(events), Snapshot(t, Some(objects), uuids, order));
            && s'.backend.emitted != []
            && var shown := s'.backend.emitted[|s'.backend.emitted| - 1];
               && shown.available
               && PendingAreShown(s'.agent.pending, shown)
               && forall id :: id in s'.agent.pending <==>
                    id in s.agent.pending && exists d :: d in shown.devices && d.id == s.agent.pending[id].request.device
  {
    var s := Run(events);
    EveryRunKeepsInvariant(events);
    hide Run;
    var c := B.Answered(s.backend, t, Some(objects), uuids);
    OneEvent(s.agent, A.DevicesChange(c.agentDevices, order));
    SetDevicesKeepsKnown(s.agent, c.agentDevices, order);
    assert uuids.Keys == B.Live(objects) - s.backend.ids.Keys;
    ToldAreShown(B.Publish(s.backend, objects, uuids).ids, objects);
    hide A.Invariant, G.Invariant, A.SetDevices, B.AgentTable, B.SnapshotOf, B.Live, L.IdsAfter, L.FreshFor, R.Answer, A.Enumerates;
  }

  lemma SetDevicesKeepsKnown(a: A.Agent, devices: map<string, Id>, order: seq<Id>)
    requires A.Invariant(a) && A.Enumerates(order, a.pending.Keys)
    ensures var b := A.SetDevices(a, devices, order);
            && (forall id :: id in b.pending <==> id in a.pending && a.pending[id].request.device in devices.Values)
            && (forall id :: id in b.pending ==> b.pending[id] == a.pending[id])
  {
    A.DismissUnknownConserves(a.(devices := devices), order);
  }

  /** The devices the agent is told are exactly those of the snapshot. */
  lemma ToldAreShown(ids: map<string, Id>, objects: seq<B.Object>)
    ensures forall id :: id in B.AgentTable(ids, B.Devices(objects, B.Adapters(objects))).Values
                         <==> exists d :: d in B.SnapshotOf(ids, objects).devices && d.id == id
  {
    hide B.Adapters, B.Lookup;
    var devices := B.Devices(objects, B.Adapters(objects));
    var table, records := B.AgentTable(ids, devices), B.DeviceRecords(ids, devices);
    forall id | id in table.Values ensures exists d :: d in records && d.id == id {
      var p :| p in table && table[p] == id;
      var o :| o in devices && o.path == p;
      var i :| 0 <= i < |devices| && devices[i] == o;
      assert records[i].id == id && records[i] in records;
    }
    forall d | d in records ensures d.id in table.Values {
      var i :| 0 <= i < |records| && records[i] == d;
      assert devices[i] in devices && devices[i].path in table;
    }
  }

  /** In every run: an owner change, a stop and a failed refresh leave no interaction pending. */
  lemma WithdrawalEndsInteractions(events: seq<Event>, e: Event)
    requires var s := Run(events);
             && Enabled(s, e)
             && (|| (e.OwnerSet? && NewOwner(s.backend, e.event).Some?)
                 || (e.Stopped? && s.backend.refresh.started)
                 || (e.Snapshot? && R.VerdictOn(s.backend.refresh, e.at, e.objects.Some?).Failed?))
    ensures Step(Run(events), e).agent.pending == map[]
  {
    var s := Run(events);
    EveryRunKeepsInvariant(events);
    hide Run, G.Invariant;
    match e {
      case OwnerSet(event, order) =>
        OneEvent(s.agent, A.OwnerChanges(NewOwner(s.backend, event).value, order));
        ClearedIsEmpty(s.agent, order);
      case Stopped(order) =>
        TwoEvents(s.agent, A.Clears(order), A.OwnerChanges("", []));
        ClearedIsEmpty(s.agent, order);
      case Snapshot(t, objects, uuids, order) =>
        OneEvent(s.agent, A.DevicesChange(map[], order));
        SetDevicesKeepsKnown(s.agent, map[], order);
        assert AgentEvents(s, e) == [A.DevicesChange(map[], order)];
    }
  }

  /**
   In every run: a pending interaction names a device that once had this ID; and while the agent's devices are up to date
   that ID is in the table, so the user is asked about a device that is there.
   */
  lemma PendingDevicesAreReal(events: seq<Event>, id: Id)
    requires id in Run(events).agent.pending
    ensures var s := Run(events);
            var device := s.agent.pending[id].request.device;
            && (exists path :: (path, device) in s.backend.drawn)
            && (G.Synced(s.backend) ==> device in s.backend.ids.Values)
  {
    var s := Run(events);
    EveryRunKeepsInvariant(events);
    hide Run, R.Invariant, L.Sound;
    var path :| path in s.agent.devices && s.agent.devices[path] == s.agent.pending[id].request.device;
    assert (path, s.backend.agentDevices[path]) in s.backend.drawn;
  }

  // ---------------------------------------------------------------- both parts run as specified on their own

  /**
   In every run: the agent goes through a run of its own specification and the backend through one of its own, so all that
   is proved about either holds of them together.
   */
  lemma {:induction false} PartsRunAsSpecified(events: seq<Event>) returns (ofAgent: seq<A.Event>, ofBackend: seq<B.Event>)
    ensures Run(events).agent == A.Run(ofAgent) && Run(events).backend == B.Run(ofBackend)
  {
    if events == [] {
      ofAgent, ofBackend := [], [];
    } else {
      var s, e := Run(events[..|events| - 1]), events[|events| - 1];
      ofAgent, ofBackend := PartsRunAsSpecified(events[..|events| - 1]);
      if Enabled(s, e) {
        AgentRunsOn(ofAgent, AgentEvents(s, e));
        ofAgent := ofAgent + AgentEvents(s, e);
        if BackendEvent(s, e).Some? {
          G.RunOneMore(ofBackend, BackendEvent(s, e).value);
          ofBackend := ofBackend + [BackendEvent(s, e).value];
        }
      }
      hide A.Run, B.Run, Enabled, AgentEvents, BackendEvent, PerformAll, B.Step;
    }
  }

  lemma {:induction false} AgentRunsOn(before: seq<A.Event>, more: seq<A.Event>)
    ensures PerformAll(A.Run(before), more) == A.Run(before + more)
  {
    if more == [] {
      assert before + more == before;
    } else {
      var n := |more| - 1;
      AgentRunsOn(before, more[..n]);
      assert (before + more)[..|before + more| - 1] == before + more[..n] && (before + more)[|before + more| - 1] == more[n];
    }
  }
}
