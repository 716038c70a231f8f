/**
 The request machine of SwayBackend.cpp as functions on its state: one command outstanding, one queued window, one
 queued workspace, a remembered dirty refresh, and a session that a disconnect forgets.

 History: `wire` holds the commands sent and not yet answered, numbered over the whole run; `owed` says that something
 happened in Sway since the latest refresh was started; `published` lists the snapshots emitted; `tree` is the layout
 tree of the last refresh taken over.
 */
module SwaySession {
  import opened Numerals
  import opened Prelude
  import Ipc = SwayIpc
  import N = SwayWorkspaces
  import P = SwayRefresh
  import T = SwayTree
  import W = WindowActivation

  datatype Link = Unconnected | Connecting | Connected

  datatype Phase = Idle | Workspaces | Outputs | Tree | WorkspaceActivation | WindowActivation

  /** A workspace by identifier, or a numbered slot when `slot` is not 0. */
  datatype Activation = Activation(id: string, slot: nat)

  datatype Command = GetWorkspaces | GetOutputs | GetTree | FocusName(name: string) | FocusSlot(slot: nat) | FocusWindow(container: nat)

  datatype Sent = Sent(serial: nat, session: nat, command: Command)

  /** An online snapshot remembers the commands whose replies it was built from. */
  datatype Snapshot = Offline | Online(workspaces: Sent, outputs: Sent, tree: Sent)

  datatype History = History(wire: seq<Sent>, sends: nat, session: nat, owed: bool, published: seq<Snapshot>,
                             tree: Option<T.Node>)

  /** `writes` foretells which coming socket writes succeed; past its end they all do. */
  datatype Backend = Backend(
    request: Link, subscription: Link, subscriptionReady: bool, writes: seq<bool>,
    phase: Phase, refreshTimer: bool, reconnectTimer: bool, reconnectDelay: nat, dirty: bool,
    pendingWindow: Option<nat>, pendingActivation: Option<Activation>,
    workspaces: Option<Sent>, outputs: Option<Sent>,
    numbered: N.Numbering, names: map<string, string>,
    candidates: seq<W.Candidate>, containers: seq<nat>,
    history: History)

  const NO_NUMBERS := N.Numbering(false, map[])
  const INITIAL_DELAY := 1000
  const MAXIMUM_DELAY := 30000
  const SUBSCRIBE_KIND := 2
  const EVENT_BIT := 0x8000_0000
  const NO_KIND := 0xFFFF_FFFF

  function Initial(writes: seq<bool>): Backend {
    Backend(Unconnected, Unconnected, false, writes, Idle, false, false, INITIAL_DELAY, false, None, None, None, None,
            NO_NUMBERS, map[], [], [], History([], 0, 0, false, [], None))
  }

  function KindOf(c: Command): nat {
    match c
    case GetWorkspaces => 1
    case GetOutputs => 3
    case GetTree => 4
    case _ => 0
  }

  const WORKSPACE_PREFIX := "workspace --no-auto-back-and-forth "

  /** The payload of the command; queries have none. */
  function Text(c: Command): string {
    match c
    case FocusName(name) => Ipc.COMMAND_PREFIX + Ipc.EscapeWorkspaceName(name) + "\""
    case FocusSlot(slot) => WORKSPACE_PREFIX + "number " + Decimal(slot)
    case FocusWindow(container) => "[con_id=" + Decimal(container) + "] focus"
    case _ => ""
  }

  function ExpectedKind(p: Phase): nat {
    match p
    case Workspaces => 1
    case Outputs => 3
    case Tree => 4
    case WorkspaceActivation => 0
    case WindowActivation => 0
    case Idle => NO_KIND
  }

  predicate Refreshing(p: Phase) { p in {Workspaces, Outputs, Tree} }

  predicate Activating(p: Phase) { p in {WorkspaceActivation, WindowActivation} }

  /** The command that a phase waits for. */
  predicate Issues(p: Phase, c: Command) {
    match p
    case Idle => false
    case Workspaces => c == GetWorkspaces
    case Outputs => c == GetOutputs
    case Tree => c == GetTree
    case WorkspaceActivation => c.FocusName? || c.FocusSlot?
    case WindowActivation => c.FocusWindow?
  }

  // ---------------------------------------------------------------- the operations

  predicate NextWrite(b: Backend) { b.writes == [] || b.writes[0] }

  /** sendRequest: the command is on its way exactly when the write succeeds. */
  function Send(b: Backend, c: Command): Backend {
    var later := if b.writes == [] then [] else b.writes[1..];
    var h := b.history;
    b.(writes := later,
       history := if NextWrite(b) then h.(wire := h.wire + [Sent(h.sends, h.session, c)], sends := h.sends + 1) else h)
  }

  function Fail(b: Backend): Backend {
    b.(numbered := NO_NUMBERS, names := map[], history := b.history.(published := b.history.published + [Offline]))
  }

  function ScheduleReconnect(b: Backend): Backend {
    if b.reconnectTimer then b
    else b.(reconnectTimer := true,
            reconnectDelay := if b.reconnectDelay * 2 < MAXIMUM_DELAY then b.reconnectDelay * 2 else MAXIMUM_DELAY)
  }

  function Disconnect(b: Backend): Backend {
    if b.request == Unconnected && b.subscription == Unconnected && b.reconnectTimer then b
    else
      var cleared := Fail(b.(phase := Idle, workspaces := None, outputs := None, candidates := [], containers := [],
                             pendingWindow := None, pendingActivation := None, dirty := false));
      ScheduleReconnect(cleared.(request := Unconnected, subscription := Unconnected,
                                 history := cleared.history.(wire := [], session := b.history.session + 1)))
  }

  function Connect(b: Backend): Backend {
    b.(phase := Idle, subscriptionReady := false, request := Connecting, subscription := Connecting)
  }

  function ScheduleRefresh(b: Backend): Backend {
    if b.phase != Idle then b.(dirty := true) else b.(refreshTimer := true)
  }

  /** Something happened in Sway that a later refresh has to show. */
  function Notice(b: Backend): Backend {
    ScheduleRefresh(b.(history := b.history.(owed := true)))
  }

  function BeginRefresh(b: Backend): Backend {
    if b.request != Connected || b.phase != Idle then b
    else
      var b' := Send(b.(dirty := false, workspaces := None, outputs := None, phase := Workspaces,
                        history := b.history.(owed := false)), GetWorkspaces);
      if NextWrite(b) then b' else Disconnect(b')
  }

  function BeginWindow(b: Backend, container: nat): Backend {
    Send(b.(phase := if NextWrite(b) then WindowActivation else Idle), FocusWindow(container))
  }

  function Queued(b: Backend): nat {
    (if b.pendingWindow.Some? then 1 else 0) + (if b.pendingActivation.Some? then 1 else 0)
  }

  /** drainWork: a queued window first, then a queued workspace, then a remembered refresh. */
  function Drain(b: Backend): Backend
    decreases Queued(b), 0
  {
    if b.phase != Idle then b
    else if b.pendingWindow.Some? then
      var b' := BeginWindow(b.(pendingWindow := None), b.pendingWindow.value);
      if NextWrite(b) then b' else ScheduleRefresh(Fail(b').(dirty := true))
    else if b.pendingActivation.Some? then Dispatch(b.(pendingActivation := None), b.pendingActivation.value)
    else if b.dirty then ScheduleRefresh(b)
    else b
  }

  function ActivationCommand(b: Backend, a: Activation): Command {
    if a.slot > 0 then FocusSlot(a.slot) else FocusName(if a.id in b.names then b.names[a.id] else "")
  }

  function Dispatch(b: Backend, a: Activation): Backend
    decreases Queued(b), 1
  {
    if b.request != Connected then b
    else if b.phase != Idle then b.(pendingActivation := Some(a))
    else if a.slot == 0 && a.id !in b.names then Drain(b)
    else
      var b' := Send(b.(phase := WorkspaceActivation), ActivationCommand(b, a));
      if NextWrite(b) then b' else Drain(Fail(b'.(phase := Idle)).(dirty := true))
  }

  /** Takes over a parsed refresh; both earlier replies are there whenever the tree arrives. */
  function Install(b: Backend, p: P.Parsed, tree: Sent): Backend {
    b.(reconnectDelay := INITIAL_DELAY, numbered := p.numbered, names := p.names,
       candidates := Lefts(p.windows), containers := Rights(p.windows),
       history := b.history.(tree := Some(p.tree), published := b.history.published +
         [if b.workspaces.Some? && b.outputs.Some? then Online(b.workspaces.value, b.outputs.value, tree) else Offline]))
  }

  function FinishRefresh(b: Backend, tree: Sent, parsed: Option<P.Parsed>): Backend {
    var b' := b.(phase := Idle);
    Drain(match parsed case Some(p) => Install(b', p, tree) case None => Fail(b'))
  }

  function FinishActivation(b: Backend, success: bool): Backend {
    var b' := b.(phase := Idle);
    Drain((if success then b' else Fail(b')).(dirty := true))
  }

  /** What a reply says: the parsed refresh for a tree, success for a command; unused otherwise. */
  datatype Content = Content(parsed: Option<P.Parsed>, success: bool)

  /** The reply to the command at the head of the wire, which has the kind the phase expects. */
  function Reply(b: Backend, content: Content): Backend
    requires b.history.wire != []
  {
    var reply := b.history.wire[0];
    var b' := b.(history := b.history.(wire := b.history.wire[1..]));
    match b.phase
    case Workspaces =>
      var b'' := Send(b'.(workspaces := Some(reply), phase := Outputs), GetOutputs);
      if NextWrite(b) then b'' else Disconnect(b'')
    case Outputs =>
      var b'' := Send(b'.(outputs := Some(reply), phase := Tree), GetTree);
      if NextWrite(b) then b'' else Disconnect(b'')
    case Tree => FinishRefresh(b', reply, content.parsed)
    case Idle => b'
    case _ => FinishActivation(b', content.success)
  }

  function SubscriptionFrame(b: Backend, kind: nat, accepted: bool): Backend {
    if !b.subscriptionReady then
      if kind != SUBSCRIBE_KIND || !accepted then Disconnect(Fail(b)) else b.(subscriptionReady := true)
    else if kind / EVENT_BIT % 2 == 0 then Disconnect(Fail(b))
    else Notice(b)
  }

  function ActivateWorkspace(b: Backend, id: string): Backend {
    if id in b.names then Dispatch(b, Activation(id, 0)) else b
  }

  function ActivateSlot(b: Backend, slot: int): Backend {
    if slot > 0 then Dispatch(b, Activation("", slot)) else b
  }

  /** requestWindowActivation, given how the resolver judged the request. */
  function RequestWindow(b: Backend, r: W.Request, resolution: W.Resolution): (Backend, W.Outcome)
    requires |b.candidates| == |b.containers|
    requires W.Resolves(r, b.candidates, resolution)
  {
    if resolution.outcome == W.InvalidRequest then (b, W.InvalidRequest)
    else if b.request != Connected then (b, W.Disconnected)
    else if resolution.outcome != W.Accepted then (b, resolution.outcome)
    else
      var container := b.containers[resolution.index.value];
      if b.phase != Idle then
        if b.pendingWindow.Some? then (b, W.Busy) else (b.(pendingWindow := Some(container)), W.Accepted)
      else if NextWrite(b) then (BeginWindow(b, container), W.Accepted)
      else (ScheduleRefresh(Fail(BeginWindow(b, container))), W.Failed)
  }

  // ---------------------------------------------------------------- runs

  datatype Event =
    | Start
    | ReconnectTimeout
    | RequestConnected
    | SubscriptionConnected
    | RequestRefused
    | SubscriptionRefused
    | RequestLost
    | SubscriptionLost
    | RefreshTimeout
    | Answered(content: Content)
    | UnexpectedFrame(kind: nat)
    | MalformedData
    | Subscribed(kind: nat, accepted: bool)
    | MalformedEvents
    | Workspace(id: string)
    | Slot(slot: int)
    | Window(r: W.Request, resolution: W.Resolution)

  /** A parsed refresh comes from some replies. */
  ghost predicate Receivable(content: Content) {
    content.parsed.Some? ==> exists listed :: P.ParsedFrom(content.parsed.value, listed)
  }

  /** Sway answers commands in the order sent; frames it sends unasked do not have the kind awaited. */
  ghost predicate Enabled(b: Backend, e: Event) {
    match e
    case Start => b.request == Unconnected && b.subscription == Unconnected && !b.reconnectTimer
    case ReconnectTimeout => b.reconnectTimer
    case RequestConnected => b.request == Connecting
    case SubscriptionConnected => b.subscription == Connecting
    case RequestRefused => b.request == Connecting
    case SubscriptionRefused => b.subscription == Connecting
    case RequestLost => b.request == Connected
    case SubscriptionLost => b.subscription == Connected
    case RefreshTimeout => b.refreshTimer
    case Answered(content) =>
      && b.request == Connected && b.history.wire != []
      && Receivable(content)
    case UnexpectedFrame(kind) => b.request == Connected && kind != ExpectedKind(b.phase)
    case MalformedData => b.request == Connected
    case Subscribed(kind, _) => b.subscription == Connected && kind < 0x1_0000_0000
    case MalformedEvents => b.subscription == Connected
    case Window(r, resolution) => |b.candidates| == |b.containers| && W.Resolves(r, b.candidates, resolution)
    case _ => true
  }

  ghost function Step(b: Backend, e: Event): Backend {
    if !Enabled(b, e) then b
    else
      match e
      case Start => Connect(b)
      case ReconnectTimeout => Connect(b.(reconnectTimer := false))
      case RequestConnected => Notice(b.(request := Connected))
      case SubscriptionConnected => b.(subscription := Connected)
      case RequestRefused => b.(request := Unconnected)
      case SubscriptionRefused => b.(subscription := Unconnected)
      case RequestLost => Disconnect(b.(request := Unconnected))
      case SubscriptionLost => Disconnect(b.(subscription := Unconnected))
      case RefreshTimeout => BeginRefresh(b.(refreshTimer := false))
      case Answered(content) =>
        if KindOf(b.history.wire[0].command) == ExpectedKind(b.phase) then Reply(b, content) else Disconnect(b)
      case UnexpectedFrame(_) => Disconnect(b)
      case MalformedData => Disconnect(b)
      case Subscribed(kind, accepted) => SubscriptionFrame(b, kind, accepted)
      case MalformedEvents => Disconnect(Fail(b))
      case Workspace(id) => ActivateWorkspace(b, id)
      case Slot(slot) => ActivateSlot(b, slot)
      case Window(r, resolution) => RequestWindow(b, r, resolution).0
  }

  ghost function Run(writes: seq<bool>, events: seq<Event>): Backend {
    if events == [] then Initial(writes)
    else Step(Run(writes, events[..|events| - 1]), events[|events| - 1])
  }
}
