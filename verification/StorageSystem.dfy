/**
 StorageController connected to UDisks2Backend: every signal the backend emits is handled by the controller in order,
 and every command the controller issues goes straight to execute(). The environment chooses the events.
 */
module StorageSystem {
  import opened Prelude
  import opened StorageTypes
  import C = ControllerSpec
  import CI = ControllerInvariant
  import CG = ControllerGuarantees
  import L = LifetimeIds
  import U = UDisksSpec
  import UI = UDisksInvariant

  /** A command handed to the backend, with the controller as it was at that moment. */
  datatype Dispatched = Dispatched(command: C.Command, controller: C.Controller)

  datatype System = System(controller: C.Controller, backend: U.Backend, log: seq<Dispatched>)

  datatype Event =
    | Begin(id: Id, operation: Operation, targetId: Id, confirmed: seq<Id>)
    | Dequeue(id: Id, step: Id)
    | Start
    | NameAnswered(generation: nat, name: U.NameReply)
    | OwnerChanged(owner: string)
    | SomethingChanged
    | InterfacesRemoved(path: string, interfaces: set<U.Interface>)
    | SnapshotAnswered(at: nat, objects: Option<seq<U.Object>>, uuids: map<U.Key, Id>, steps: seq<Id>)
    | OperationAnswered(at: nat, reply: U.OperationReply)
    | Expire(result: Result, step: Id)
    | Stop

  function Initial(service: string): System {
    System(C.Initial(), U.Initial(service), [])
  }

  // ---------------------------------------------------------------- wiring

  /** Take the controller's move and hand its command over. */
  ghost function Perform(s: System, move: C.Move): System {
    match move.command
    case None => s.(controller := move.state)
    case Some(command) =>
      System(move.state, U.Execute(s.backend, command.stepId, command.operation, command.targetId),
             s.log + [Dispatched(command, move.state)])
  }

  ghost function Handle(s: System, signal: U.Signal, step: Id): System
    requires s.controller.requests.Keys <= s.controller.traces.Keys
  {
    match signal
    case SnapshotChanged(drives, volumes, available) =>
      s.(controller := C.TakeSnapshot(s.controller, drives, volumes, available))
    case OperationFinished(result) => Perform(s, C.Settle(s.controller, result, step))
  }

  /** Signals are delivered one after the other; `steps` are the identifiers drawn if a signal makes a request advance. */
  ghost function HandleAll(s: System, signals: seq<U.Signal>, steps: seq<Id>): System
    requires |steps| == |signals|
    decreases |signals|
  {
    if signals == [] || !(s.controller.requests.Keys <= s.controller.traces.Keys) then s
    else HandleAll(Handle(s, signals[0], steps[0]), signals[1..], steps[1..])
  }

  ghost predicate FreshSteps(c: C.Controller, steps: seq<Id>) {
    Distinct(steps) && forall i :: 0 <= i < |steps| ==> steps[i] != "" && steps[i] !in c.minted
  }

  /** Identifiers drawn are new and non-empty, replies answer calls in flight, error replies carry an error name. */
  ghost predicate Enabled(s: System, e: Event) {
    match e
    case Begin(id, _, _, _) => id != "" && id !in s.controller.minted
    case Dequeue(id, step) => id in s.controller.queued && FreshSteps(s.controller, [step])
    case NameAnswered(generation, _) => generation in s.backend.nameCalls
    case SnapshotAnswered(t, reply, uuids, steps) =>
      && t in s.backend.refresh.calls
      && (reply.Some? ==> U.DistinctPaths(reply.value) && L.FreshFor(s.backend.ids, s.backend.drawn, U.Live(reply.value), uuids))
      && |steps| == |U.Answered(s.backend, t, reply, uuids).signals|
      && FreshSteps(s.controller, steps)
    case OperationAnswered(t, reply) => t in s.backend.operations && (reply.Failure? ==> reply.errorName != "")
    case Expire(result, step) => result in s.backend.immediate && FreshSteps(s.controller, [step])
    case _ => true
  }

  ghost function After(s: System, m: U.Outcome, steps: seq<Id>): System
    requires |steps| == |m.signals|
  {
    HandleAll(s.(backend := m.state), m.signals, steps)
  }

  /** An event that cannot happen leaves the system alone. */
  ghost function Step(s: System, e: Event): System {
    if !Enabled(s, e) then s
    else
      match e
      case Begin(id, operation, targetId, confirmed) =>
        s.(controller := C.Begin(s.controller, id, operation, targetId, confirmed))
      case Dequeue(id, step) =>
        if s.controller.requests.Keys <= s.controller.traces.Keys then Perform(s, C.Dequeue(s.controller, id, step)) else s
      case Start => s.(backend := U.Start(s.backend))
      case NameAnswered(generation, reply) => Withdraw(s, U.NameAnswered(s.backend, generation, reply))
      case OwnerChanged(owner) => Withdraw(s, U.OwnerChanged(s.backend, owner))
      case SomethingChanged => s.(backend := U.Changed(s.backend))
      case InterfacesRemoved(path, interfaces) => s.(backend := U.Removed(s.backend, path, interfaces))
      case SnapshotAnswered(t, reply, uuids, steps) => After(s, U.Answered(s.backend, t, reply, uuids), steps)
      case OperationAnswered(t, reply) => s.(backend := U.OperationAnswered(s.backend, t, reply))
      case Expire(result, step) => After(s, U.Expire(s.backend, result), [step])
      case Stop => Withdraw(s, U.Stop(s.backend))
  }

  /** Outcomes that emit nothing or withdraw everything draw no step identifiers. */
  ghost function Withdraw(s: System, m: U.Outcome): System
    requires m.signals == [] || m.signals == [U.WITHDRAWN]
  {
    var s' := s.(backend := m.state);
    if m.signals == [] then s'
    else s'.(controller := C.TakeSnapshot(s.controller, [], [], false))
  }

  ghost function Run(service: string, events: seq<Event>): System {
    if events == [] then Initial(service)
    else Step(Run(service, events[..|events| - 1]), events[|events| - 1])
  }

  // ---------------------------------------------------------------- where an answer can still come from

  /** The backend or a signal under way still owes an answer to this step. */
  ghost predicate Owed(b: U.Backend, rest: seq<U.Signal>, step: Id) {
    || (exists t :: t in b.operations && b.operations[t].generation == b.refresh.generation
                    && b.operations[t].result.requestId == step)
    || (exists c :: c in b.completions && c.result.requestId == step)
    || (exists r :: r in b.immediate && r.requestId == step)
    || (exists g :: g in rest && g.OperationFinished? && g.result.requestId == step)
  }

  /** No request waits for an answer that cannot come. */
  ghost predicate Linked(s: System, rest: seq<U.Signal>) {
    forall id :: id in s.controller.requests && s.controller.requests[id].stepId != "" ==>
      Owed(s.backend, rest, s.controller.requests[id].stepId)
  }

  /** Every step the backend knows was drawn by the controller. */
  ghost predicate StepsKnown(minted: set<Id>, b: U.Backend, rest: seq<U.Signal>) {
    && (forall t :: t in b.operations ==> b.operations[t].result.requestId in minted)
    && (forall c :: c in b.completions ==> c.result.requestId in minted)
    && (forall r :: r in b.immediate ==> r.requestId in minted)
    && (forall g :: g in rest && g.OperationFinished? ==> g.result.requestId in minted)
  }

  /** Nobody waits for an operation call of an earlier generation. */
  ghost predicate StaleCallsRetired(s: System) {
    forall t :: t in s.backend.operations && s.backend.operations[t].generation != s.backend.refresh.generation ==>
      CG.Retired(s.controller, s.backend.operations[t].result.requestId)
  }

  ghost predicate LogJustified(s: System) {
    forall i :: 0 <= i < |s.log| ==> CG.Justified(s.log[i].controller, s.log[i].command)
  }

  ghost predicate InvariantDuring(s: System, rest: seq<U.Signal>) {
    && CI.Invariant(s.controller) && UI.Invariant(s.backend)
    && Linked(s, rest) && StepsKnown(s.controller.minted, s.backend, rest)
    && StaleCallsRetired(s) && LogJustified(s)
  }

  ghost predicate Invariant(s: System) {
    InvariantDuring(s, [])
  }
}
