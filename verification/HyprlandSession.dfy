/**
 The request machine of HyprlandBackend.cpp as functions on its state. The transport runs one command at a time and a
 disconnect of the event stream does not stop the command that is running.

 History: `running` is the command the transport is busy with, numbered over the whole run and marked with the phase and
 the session it was issued in; a disconnect of the event stream begins the next session.
 */
module HyprlandSession {
  import opened Numerals
  import opened Prelude
  import Ipc = SwayIpc
  import W = WindowActivation

  datatype Phase =
    | Idle | Monitors | Workspaces | Clients
    | WorkspaceActivation | LuaActivation | WindowActivation | LuaWindowActivation

  datatype Command =
    | ListMonitors | ListWorkspaces | ListClients
    | FocusWorkspace(id: string) | ToggleSpecial(name: string) | LuaWorkspace(id: string) | LuaSpecial(name: string)
    | FocusAddress(address: string) | LuaAddress(address: string)

  datatype Issued = Issued(serial: nat, session: nat, phase: Phase, command: Command)

  datatype Snapshot = Offline | Online(monitors: Issued, workspaces: Issued, clients: Issued)

  /** What the three replies contain, once parsed; `seen` are the urgent addresses now on a visible workspace. */
  datatype Parsed = Parsed(assignments: map<string, int>, specials: seq<string>, windows: seq<(W.Candidate, string)>, seen: set<string>)

  /** A reply: the parsed snapshot for clients, whether it reports an error for an activation. */
  datatype Content = Content(parsed: Option<Parsed>, isError: bool)

  datatype History = History(sends: nat, session: nat, published: seq<Snapshot>)

  /** `accepts` foretells which commands an idle transport takes; past its end it takes them all. */
  datatype Backend = Backend(
    running: Option<Issued>, accepts: seq<bool>,
    phase: Phase, dirty: bool, scheduled: bool,
    monitors: Option<Issued>, workspaces: Option<Issued>,
    activationId: string, activationIsSpecial: bool, windowAddress: string,
    pendingActivation: string, pendingWindow: Option<string>,
    assignments: map<string, int>, specials: seq<string>,
    candidates: seq<W.Candidate>, addresses: seq<string>, urgent: set<string>,
    history: History)

  const SPECIAL_PREFIX := "special:"

  function Initial(accepts: seq<bool>): Backend {
    Backend(None, accepts, Idle, false, false, None, None, "", false, "", "", None, map[], [], [], [], {}, History(0, 0, []))
  }

  predicate IsSpecial(id: string) {
    SPECIAL_PREFIX <= id
  }

  /** QChar::isSpace. */
  predicate IsSpace(c: char) {
    || '\t' <= c <= '\r' || c in {' ', '\U{0085}', '\U{00A0}', '\U{1680}'}
    || '\U{2000}' <= c <= '\U{200A}' || c in {'\U{2028}', '\U{2029}', '\U{202F}', '\U{205F}', '\U{3000}'}
  }

  function Trimmed(s: string): string
    decreases |s|
  {
    if s == "" then ""
    else if IsSpace(s[0]) then Trimmed(s[1..])
    else if IsSpace(s[|s| - 1]) then Trimmed(s[..|s| - 1])
    else s
  }

  predicate IsNumeral(s: string, bound: nat) {
    s != "" && IsDigits(s) && NumberOf(s) < bound
  }

  /** QString::toInt accepts the text: blanks around an optional sign and digits that fit 32 bits. */
  predicate ReadsAsInt(s: string) {
    var t := Trimmed(s);
    if "-" <= t then IsNumeral(t[1..], 0x8000_0001)
    else if "+" <= t then IsNumeral(t[1..], 0x8000_0000)
    else IsNumeral(t, 0x8000_0000)
  }

  /** Identifiers that dispatchWorkspace does not turn away. */
  predicate Dispatchable(id: string) {
    ReadsAsInt(id) || IsSpecial(id)
  }

  /** The text handed to the transport for a command; names inside Lua strings have backslashes and quotes escaped. */
  function Text(c: Command): string {
    match c
    case ListMonitors => "j/monitors"
    case ListWorkspaces => "j/workspaces"
    case ListClients => "j/clients"
    case FocusWorkspace(id) => "dispatch workspace " + id
    case ToggleSpecial(name) => "dispatch togglespecialworkspace " + name
    case LuaWorkspace(id) => "dispatch hl.dsp.focus({ workspace = " + id + " })"
    case LuaSpecial(name) => "dispatch hl.dsp.workspace.toggle_special(\"" + Ipc.EscapeWorkspaceName(name) + "\")"
    case FocusAddress(address) => "dispatch focuswindow address:" + address
    case LuaAddress(address) => "dispatch hl.dsp.focus({ window = \"address:" + Ipc.EscapeWorkspaceName(address) + "\" })"
  }

  // ---------------------------------------------------------------- the operations

  predicate Free(b: Backend) { b.phase == Idle && b.running == None }

  predicate NextAccepted(b: Backend) { b.running == None && (b.accepts == [] || b.accepts[0]) }

  /** runCommand: refused while a command runs, or when the transport has no socket to use. */
  function Issue(b: Backend, c: Command): Backend {
    if b.running.Some? then b
    else
      var b' := b.(accepts := if b.accepts == [] then [] else b.accepts[1..]);
      if NextAccepted(b) then
        b'.(running := Some(Issued(b.history.sends, b.history.session, b.phase, c)),
            history := b.history.(sends := b.history.sends + 1))
      else b'
  }

  /** Any snapshot that is not connected also clears the numbered and special workspaces. */
  function EmitOffline(b: Backend): Backend {
    b.(assignments := map[], specials := [], history := b.history.(published := b.history.published + [Offline]))
  }

  function Fail(b: Backend): Backend {
    EmitOffline(b.(phase := Idle))
  }

  function ScheduleRefresh(b: Backend): Backend {
    if !Free(b) then b.(dirty := true) else b.(scheduled := true)
  }

  function BeginRefresh(b: Backend): Backend {
    if !Free(b) then b.(dirty := true) else Query(b.(dirty := false), Monitors, ListMonitors)
  }

  /** Enters a query phase; a refusal ends the refresh. */
  function Query(b: Backend, next: Phase, c: Command): Backend {
    var b' := Issue(b.(phase := next), c);
    if NextAccepted(b) then b' else Fail(b')
  }

  function BeginWindow(b: Backend, address: string): Backend {
    var b' := Issue(b.(windowAddress := address, phase := WindowActivation), FocusAddress(address));
    if NextAccepted(b) then b' else b'.(phase := Idle)
  }

  function DispatchWorkspace(b: Backend, id: string): Backend {
    if !Dispatchable(id) then b
    else if !Free(b) then b.(pendingActivation := id)
    else
      var command := if IsSpecial(id) then ToggleSpecial(id[|SPECIAL_PREFIX|..]) else FocusWorkspace(id);
      var b' := Issue(b.(activationId := id, activationIsSpecial := IsSpecial(id), phase := WorkspaceActivation), command);
      if NextAccepted(b) then b' else Fail(b')
  }

  function Drain(b: Backend): Backend {
    if !Free(b) then b
    else if b.pendingWindow.Some? then
      var b' := BeginWindow(b.(pendingWindow := None), b.pendingWindow.value);
      if NextAccepted(b) then b' else ScheduleRefresh(EmitOffline(b').(dirty := true))
    else if b.pendingActivation != "" then DispatchWorkspace(b.(pendingActivation := ""), b.pendingActivation)
    else if b.dirty then ScheduleRefresh(b)
    else b
  }

  function RunLuaActivation(b: Backend): Backend {
    Query(b, LuaActivation,
          if b.activationIsSpecial then LuaSpecial(if IsSpecial(b.activationId) then b.activationId[|SPECIAL_PREFIX|..] else "")
          else LuaWorkspace(b.activationId))
  }

  function RunLuaWindowActivation(b: Backend): Backend {
    Query(b, LuaWindowActivation, LuaAddress(b.windowAddress))
  }

  /** Takes over a parsed refresh; both earlier replies are there whenever the clients arrive. */
  function Publish(b: Backend, clients: Issued, parsed: Option<Parsed>): Backend {
    match parsed
    case None => Fail(b)
    case Some(p) =>
      b.(assignments := p.assignments, specials := p.specials, urgent := b.urgent - p.seen,
         candidates := Lefts(p.windows), addresses := Rights(p.windows),
         history := b.history.(published := b.history.published +
           [if b.monitors.Some? && b.workspaces.Some? then Online(b.monitors.value, b.workspaces.value, clients) else Offline]))
  }

  /** An activation answered without error: refresh next. */
  function Settle(b: Backend): Backend {
    Drain(b.(phase := Idle, dirty := true))
  }

  /** commandFinished for the running command. */
  function Finished(b: Backend, success: bool, content: Content): Backend
    requires b.running.Some?
  {
    var reply := b.running.value;
    var b' := b.(running := None);
    if !success then CommandFailed(b')
    else
      match b.phase
      case Idle => b'
      case Monitors => Query(b'.(monitors := Some(reply)), Workspaces, ListWorkspaces)
      case Workspaces => Query(b'.(workspaces := Some(reply)), Clients, ListClients)
      case Clients => Drain(Publish(b'.(phase := Idle), reply, content.parsed))
      case WorkspaceActivation => if content.isError then RunLuaActivation(b') else Settle(b')
      case LuaActivation => if content.isError then Settle(EmitOffline(b'.(phase := Idle))) else Settle(b')
      case WindowActivation => if content.isError then RunLuaWindowActivation(b') else Settle(b')
      case LuaWindowActivation => if content.isError then Settle(EmitOffline(b'.(phase := Idle))) else Settle(b')
  }

  predicate Activating(p: Phase) {
    p in {WorkspaceActivation, LuaActivation, WindowActivation, LuaWindowActivation}
  }

  function CommandFailed(b: Backend): Backend {
    var b' := EmitOffline(b.(phase := Idle));
    Drain(if Activating(b.phase) then b'.(dirty := true) else b')
  }

  function StreamLost(b: Backend): Backend {
    var b' := Fail(b.(pendingActivation := "", pendingWindow := None, candidates := [], addresses := [], urgent := {}));
    b'.(history := b'.history.(session := b.history.session + 1))
  }

  function EventLine(b: Backend, urgent: Option<string>): Backend {
    ScheduleRefresh(if urgent.Some? then b.(urgent := b.urgent + {urgent.value}) else b)
  }

  /** requestWindowActivation, given how the resolver judged the request. */
  function RequestWindow(b: Backend, r: W.Request, resolution: W.Resolution): (Backend, W.Outcome)
    requires |b.candidates| == |b.addresses|
    requires W.Resolves(r, b.candidates, resolution)
  {
    if resolution.outcome != W.Accepted then (b, resolution.outcome)
    else
      var address := b.addresses[resolution.index.value];
      if !Free(b) then
        if b.pendingWindow.Some? then (b, W.Busy) else (b.(pendingWindow := Some(address)), W.Accepted)
      else if NextAccepted(b) then (BeginWindow(b, address), W.Accepted)
      else (ScheduleRefresh(EmitOffline(BeginWindow(b, address))), W.Failed)
  }

  function ActivateWorkspace(b: Backend, id: string): Backend {
    if id in b.assignments then DispatchWorkspace(b, id) else b
  }

  function ActivateSlot(b: Backend, slot: int): Backend {
    if slot > 0 then DispatchWorkspace(b, Decimal(slot)) else b
  }

  function ActivateSpecial(b: Backend, id: string): Backend {
    if id in b.specials then DispatchWorkspace(b, id) else b
  }

  // ---------------------------------------------------------------- runs

  datatype Event =
    | StreamConnects
    | StreamBreaks
    | Line(urgent: Option<string>)
    | RefreshDue
    | CommandFinishes(success: bool, content: Content)
    | Workspace(id: string)
    | Slot(slot: int)
    | Special(id: string)
    | Window(r: W.Request, resolution: W.Resolution)

  ghost predicate Enabled(b: Backend, e: Event) {
    match e
    case RefreshDue => b.scheduled
    case CommandFinishes(_, _) => b.running.Some?
    case Slot(slot) => slot < 0x8000_0000
    case Window(r, resolution) => |b.candidates| == |b.addresses| && W.Resolves(r, b.candidates, resolution)
    case _ => true
  }

  ghost function Step(b: Backend, e: Event): Backend {
    if !Enabled(b, e) then b
    else
      match e
      case StreamConnects => ScheduleRefresh(b)
      case StreamBreaks => StreamLost(b)
      case Line(urgent) => EventLine(b, urgent)
      case RefreshDue => BeginRefresh(b.(scheduled := false))
      case CommandFinishes(success, content) => Finished(b, success, content)
      case Workspace(id) => ActivateWorkspace(b, id)
      case Slot(slot) => ActivateSlot(b, slot)
      case Special(id) => ActivateSpecial(b, id)
      case Window(r, resolution) => RequestWindow(b, r, resolution).0
  }

  ghost function Run(accepts: seq<bool>, events: seq<Event>): Backend {
    if events == [] then Initial(accepts)
    else Step(Run(accepts, events[..|events| - 1]), events[|events| - 1])
  }
}
