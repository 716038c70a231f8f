/**
 What each event makes HyprlandBackend do, as two tables over what can be observed: the command it attempts, if any, and
 the snapshots it publishes. The machine is shown to do exactly that, whatever the transport refuses.
 */
module HyprlandEffects {
  import opened HyprlandGuarantees
  import opened HyprlandSession
  import opened Numerals
  import opened Prelude
  import C = HyprlandCommands
  import W = WindowActivation

  /** A command and the phase it is issued in. */
  datatype Attempt = Attempt(phase: Phase, command: Command)

  function Plain(id: string): Attempt {
    Attempt(WorkspaceActivation, if "special:" <= id then ToggleSpecial(id[8..]) else FocusWorkspace(id))
  }

  function InLua(id: string): Attempt {
    Attempt(LuaActivation, if "special:" <= id then LuaSpecial(id[8..]) else LuaWorkspace(id))
  }

  /** The first thing in the queue: a window, or else a workspace. */
  function FirstQueued(b: Backend): Option<Attempt> {
    if b.pendingWindow.Some? then Some(Attempt(WindowActivation, FocusAddress(b.pendingWindow.value)))
    else if b.pendingActivation != "" then Some(Plain(b.pendingActivation))
    else None
  }

  /** What a reply makes the machine ask for next. */
  function AfterReply(b: Backend, content: Content): Option<Attempt> {
    match b.phase
    case Idle => None
    case Monitors => Some(Attempt(Workspaces, ListWorkspaces))
    case Workspaces => Some(Attempt(Clients, ListClients))
    case WorkspaceActivation => if content.isError then Some(InLua(b.activationId)) else FirstQueued(b)
    case WindowActivation =>
      if content.isError then Some(Attempt(LuaWindowActivation, LuaAddress(b.windowAddress))) else FirstQueued(b)
    case _ => FirstQueued(b)
  }

  /** A workspace is asked for now: it is one that Hyprland understands and nothing else is going on. */
  function AskedNow(b: Backend, known: bool, id: string): Option<Attempt> {
    if known && Free(b) && (ReadsAsInt(id) || "special:" <= id) then Some(Plain(id)) else None
  }

  /** The command the event makes the machine attempt. */
  function Attempted(b: Backend, e: Event): Option<Attempt>
    requires |b.candidates| == |b.addresses|
    requires e.Window? ==> W.Resolves(e.r, b.candidates, e.resolution)
  {
    match e
    case RefreshDue => if Free(b) then Some(Attempt(Monitors, ListMonitors)) else None
    case CommandFinishes(success, content) => if success then AfterReply(b, content) else FirstQueued(b)
    case Workspace(id) => AskedNow(b, id in b.assignments, id)
    case Slot(slot) =>
      if slot > 0 && Free(b) then Some(Attempt(WorkspaceActivation, FocusWorkspace(Decimal(slot)))) else None
    case Special(id) => AskedNow(b, id in b.specials, id)
    case Window(_, resolution) =>
      if Free(b) && resolution.outcome == W.Accepted
      then Some(Attempt(WindowActivation, FocusAddress(b.addresses[resolution.index.value]))) else None
    case _ => None
  }

  /** The snapshot the event makes the machine publish, apart from the one for a refused command. */
  function Published(b: Backend, e: Event): Option<Snapshot>
    requires e.CommandFinishes? ==> b.running.Some?
  {
    match e
    case StreamBreaks => Some(Offline)
    case CommandFinishes(success, content) =>
      if !success then Some(Offline)
      else if b.phase == Clients then
        Some(if content.parsed.Some? && b.monitors.Some? && b.workspaces.Some?
             then Online(b.monitors.value, b.workspaces.value, b.running.value) else Offline)
      else if b.phase in {LuaActivation, LuaWindowActivation} && content.isError then Some(Offline)
      else None
    case _ => None
  }

  /** What the machine learns or forgets about windows by the event itself. */
  function Noticed(b: Backend, e: Event): Backend {
    match e
    case StreamBreaks => b.(candidates := [], addresses := [], urgent := {})
    case Line(Some(address)) => b.(urgent := b.urgent + {address})
    case _ => b
  }

  /** The attempt was made: its command runs, or it was refused and the machine is idle again. */
  predicate Made(b: Backend, attempt: Option<Attempt>, running: Option<Issued>, c: Backend) {
    match attempt
    case None => c.running == running && c.history.sends == b.history.sends && c.accepts == b.accepts
    case Some(a) =>
      && c.accepts == (if b.accepts == [] then [] else b.accepts[1..])
      && if Refused(b) then c.running == None && c.phase == Idle && c.history.sends == b.history.sends
         else
           && c.running == Some(Issued(b.history.sends, b.history.session, a.phase, a.command)) && c.phase == a.phase
           && c.history.sends == b.history.sends + 1
  }

  predicate RefusedAttempt(b: Backend, attempt: Option<Attempt>) {
    attempt.Some? && Refused(b)
  }

  /** The snapshots come in this order; the last one decides which workspaces are known, an online one which windows. */
  predicate Shows(b: Backend, own: Option<Snapshot>, refused: bool, parsed: Option<Parsed>, c: Backend) {
    && c.history.published ==
         b.history.published + (if own.Some? then [own.value] else []) + (if refused then [Offline] else [])
    && (if refused || own == Some(Offline) then c.assignments == map[] && c.specials == []
        else if own.Some? && parsed.Some? then c.assignments == parsed.value.assignments && c.specials == parsed.value.specials
        else c.assignments == b.assignments && c.specials == b.specials)
    && (if own.Some? && own.value.Online? && parsed.Some? then
          && c.candidates == Lefts(parsed.value.windows) && c.addresses == Rights(parsed.value.windows)
          && c.urgent == b.urgent - parsed.value.seen
        else c.candidates == b.candidates && c.addresses == b.addresses && c.urgent == b.urgent)
  }

  predicate SameQueue(b: Backend, c: Backend) {
    c.pendingWindow == b.pendingWindow && c.pendingActivation == b.pendingActivation
  }

  /** Nothing but an attempt: a refused one also publishes that the machine is offline. */
  ghost predicate OnlyAttempts(b: Backend, attempt: Option<Attempt>, running: Option<Issued>, c: Backend) {
    && Made(b, attempt, running, c) && Shows(b, None, RefusedAttempt(b, attempt), None, c)
    && c.history.session == b.history.session
  }

  /** The event brings up what is queued: a failure, or the last reply of a refresh or an activation. */
  predicate Drains(b: Backend, e: Event) {
    e.CommandFinishes? && (!e.success || (b.phase !in {Idle, Monitors, Workspaces}
                                          && !(b.phase in {WorkspaceActivation, WindowActivation} && e.content.isError)))
  }

  /** A workspace is asked for while something else is going on. */
  predicate AskedLater(b: Backend, known: bool, id: string) {
    known && !Free(b) && (ReadsAsInt(id) || "special:" <= id)
  }

  function QueuedWorkspace(b: Backend, e: Event): string {
    match e
    case StreamBreaks => ""
    case CommandFinishes(_, _) => if Drains(b, e) && b.pendingWindow == None then "" else b.pendingActivation
    case Workspace(id) => if AskedLater(b, id in b.assignments, id) then id else b.pendingActivation
    case Slot(slot) => if slot > 0 && !Free(b) then Decimal(slot) else b.pendingActivation
    case Special(id) => if AskedLater(b, id in b.specials, id) then id else b.pendingActivation
    case _ => b.pendingActivation
  }

  function QueuedWindow(b: Backend, e: Event): Option<string>
    requires |b.candidates| == |b.addresses|
    requires e.Window? ==> W.Resolves(e.r, b.candidates, e.resolution)
  {
    match e
    case StreamBreaks => None
    case CommandFinishes(_, _) => if Drains(b, e) then None else b.pendingWindow
    case Window(_, resolution) =>
      if resolution.outcome == W.Accepted && !Free(b) && b.pendingWindow == None
      then Some(b.addresses[resolution.index.value]) else b.pendingWindow
    case _ => b.pendingWindow
  }

  /** An activation is over, well or badly: what it changed has to be shown by a refresh. */
  predicate EndsActivation(b: Backend, e: Event) {
    Drains(b, e) && b.phase in {WorkspaceActivation, LuaActivation, WindowActivation, LuaWindowActivation}
  }

  /** A refresh is remembered for later. */
  predicate Dirty(b: Backend, e: Event) {
    match e
    case StreamConnects => b.dirty || !Free(b)
    case Line(_) => b.dirty || !Free(b)
    case RefreshDue => !Free(b)
    case CommandFinishes(_, _) => b.dirty || EndsActivation(b, e) || (Drains(b, e) && b.pendingWindow.Some? && Refused(b))
    case _ => b.dirty
  }

  /** A refresh is about to begin. */
  predicate Scheduled(b: Backend, e: Event)
    requires e.Window? ==> W.Resolves(e.r, b.candidates, e.resolution)
  {
    match e
    case StreamConnects => b.scheduled || Free(b)
    case Line(_) => b.scheduled || Free(b)
    case RefreshDue => false
    case CommandFinishes(_, _) =>
      b.scheduled || (Drains(b, e) && if b.pendingWindow.Some? then Refused(b) else b.pendingActivation == "" && (b.dirty || EndsActivation(b, e)))
    case Window(_, resolution) => b.scheduled || (Free(b) && resolution.outcome == W.Accepted && Refused(b))
    case _ => b.scheduled
  }

  predicate SameMemory(b: Backend, c: Backend) {
    c.dirty == b.dirty && c.scheduled == b.scheduled
  }

  // ---------------------------------------------------------------- the operations attempt what the tables say

  lemma QueryAttempts(b: Backend, next: Phase, command: Command)
    requires b.running == None
    ensures OnlyAttempts(b, Some(Attempt(next, command)), None, Query(b, next, command))
    ensures SameQueue(b, Query(b, next, command)) && SameMemory(b, Query(b, next, command))
  {
    hide OnlyAttempts, Query;
    if Refused(b) {
      RefusedQuery(b, next, command);
    } else {
      AcceptedQuery(b, next, command);
    }
  }

  lemma RefusedQuery(b: Backend, next: Phase, command: Command)
    requires b.running == None && Refused(b)
    ensures OnlyAttempts(b, Some(Attempt(next, command)), None, Query(b, next, command))
    ensures SameQueue(b, Query(b, next, command)) && SameMemory(b, Query(b, next, command))
  {
    assert b.history.published + [] == b.history.published;
  }

  lemma AcceptedQuery(b: Backend, next: Phase, command: Command)
    requires b.running == None && !Refused(b)
    ensures OnlyAttempts(b, Some(Attempt(next, command)), None, Query(b, next, command))
    ensures SameQueue(b, Query(b, next, command)) && SameMemory(b, Query(b, next, command))
  {
    hide Fail;
  }

  lemma DispatchAttempts(b: Backend, id: string)
    ensures OnlyAttempts(b, AskedNow(b, true, id), b.running, DispatchWorkspace(b, id))
    ensures SameQueue(if AskedLater(b, true, id) then b.(pendingActivation := id) else b, DispatchWorkspace(b, id))
    ensures SameMemory(b, DispatchWorkspace(b, id))
  {
    hide ReadsAsInt, Query, Issue, Fail;
    if AskedNow(b, true, id).Some? {
      var b' := b.(activationId := id, activationIsSpecial := IsSpecial(id));
      DispatchQueries(b, id);
      QueryAttempts(b', WorkspaceActivation, Plain(id).command);
    }
  }

  lemma DispatchQueries(b: Backend, id: string)
    requires Free(b) && (ReadsAsInt(id) || "special:" <= id)
    ensures DispatchWorkspace(b, id) ==
            Query(b.(activationId := id, activationIsSpecial := IsSpecial(id)), WorkspaceActivation, Plain(id).command)
  {
    hide ReadsAsInt, Fail;
  }

  lemma WindowAttempts(b: Backend, address: string)
    requires Free(b)
    ensures var c := BeginWindow(b, address);
            Made(b, Some(Attempt(WindowActivation, FocusAddress(address))), None, c) && Shows(b, None, false, None, c)
            && c.history.session == b.history.session && SameQueue(b, c) && SameMemory(b, c)
  {}

  /** The first thing in the queue was attempted, and what was not attempted stays queued. */
  ghost predicate BroughtUp(b: Backend, c: Backend) {
    && OnlyAttempts(b, FirstQueued(b), None, c)
    && c.pendingWindow == None && c.pendingActivation == (if b.pendingWindow.Some? then b.pendingActivation else "")
    && c.dirty == (b.dirty || (b.pendingWindow.Some? && Refused(b)))
    && c.scheduled == (b.scheduled || if b.pendingWindow.Some? then Refused(b) else b.pendingActivation == "" && b.dirty)
  }

  lemma DrainAttempts(b: Backend)
    requires Free(b) && (b.pendingActivation == "" || Dispatchable(b.pendingActivation))
    ensures BroughtUp(b, Drain(b))
  {
    hide DispatchWorkspace, BeginWindow, ReadsAsInt;
    if b.pendingWindow.Some? {
      WindowAttempts(b.(pendingWindow := None), b.pendingWindow.value);
    } else if b.pendingActivation != "" {
      DispatchAttempts(b.(pendingActivation := ""), b.pendingActivation);
    }
  }

  lemma LuaAttempts(b: Backend)
    requires b.running == None && b.activationIsSpecial == IsSpecial(b.activationId)
    ensures OnlyAttempts(b, Some(InLua(b.activationId)), None, RunLuaActivation(b))
    ensures OnlyAttempts(b, Some(Attempt(LuaWindowActivation, LuaAddress(b.windowAddress))), None, RunLuaWindowActivation(b))
    ensures SameQueue(b, RunLuaActivation(b)) && SameQueue(b, RunLuaWindowActivation(b))
    ensures SameMemory(b, RunLuaActivation(b)) && SameMemory(b, RunLuaWindowActivation(b))
  {
    hide Query;
    QueryAttempts(b, LuaActivation, InLua(b.activationId).command);
    QueryAttempts(b, LuaWindowActivation, LuaAddress(b.windowAddress));
  }

  // ---------------------------------------------------------------- every event does what the tables say

  /** What was attempted and shown. */
  ghost predicate Acts(b: Backend, e: Event, c: Backend)
    requires |b.candidates| == |b.addresses| && Enabled(b, e)
  {
    var attempt := Attempted(b, e);
    && Made(b, attempt, if e.CommandFinishes? then None else b.running, c)
    && Shows(Noticed(b, e), Published(b, e), RefusedAttempt(b, attempt), if e.CommandFinishes? then e.content.parsed else None, c)
    && c.history.session == b.history.session + (if e.StreamBreaks? then 1 else 0)
  }

  /** What is queued and remembered for later. */
  ghost predicate Keeps(b: Backend, e: Event, c: Backend)
    requires |b.candidates| == |b.addresses| && Enabled(b, e)
  {
    && c.pendingWindow == QueuedWindow(b, e) && c.pendingActivation == QueuedWorkspace(b, e)
    && c.dirty == Dirty(b, e) && c.scheduled == Scheduled(b, e)
  }

  /** The event did what the tables say. */
  ghost predicate Does(b: Backend, e: Event, c: Backend)
    requires |b.candidates| == |b.addresses| && Enabled(b, e)
  {
    Acts(b, e, c) && Keeps(b, e, c)
  }

  /** Asking for a workspace, by whatever event. */
  lemma AskingDoes(b: Backend, e: Event, id: string, known: bool, c: Backend)
    requires |b.candidates| == |b.addresses| && Enabled(b, e) && (e.Workspace? || e.Slot? || e.Special?)
    requires Attempted(b, e) == AskedNow(b, known, id) && known
    requires QueuedWorkspace(b, e) == if AskedLater(b, known, id) then id else b.pendingActivation
    requires OnlyAttempts(b, AskedNow(b, true, id), b.running, c) && SameMemory(b, c)
    requires SameQueue(if AskedLater(b, true, id) then b.(pendingActivation := id) else b, c)
    ensures Does(b, e, c)
  {
    hide ReadsAsInt, Decimal, W.Resolves;
  }

  lemma IgnoringDoes(b: Backend, e: Event)
    requires |b.candidates| == |b.addresses| && Enabled(b, e) && (e.Workspace? || e.Slot? || e.Special?)
    requires Attempted(b, e) == None && QueuedWorkspace(b, e) == b.pendingActivation
    ensures Does(b, e, b)
  {
    hide ReadsAsInt, Decimal, W.Resolves;
  }

  lemma DispatchDoes(b: Backend, e: Event)
    requires Invariant(b) && Enabled(b, e) && (e.Workspace? || e.Slot? || e.Special?)
    ensures Does(b, e, Step(b, e))
  {
    hide ReadsAsInt, DispatchWorkspace, Invariant, Decimal, Does, OnlyAttempts, SameQueue, SameMemory;
    Paired(b);
    match e {
      case Workspace(id) =>
        DispatchAttempts(b, id);
        if id in b.assignments { AskingDoes(b, e, id, true, Step(b, e)); } else { IgnoringDoes(b, e); }
      case Slot(slot) =>
        if slot > 0 {
          DispatchAttempts(b, Decimal(slot));
          C.SlotsAreNumbers(slot);
          AskingDoes(b, e, Decimal(slot), true, Step(b, e));
        } else {
          IgnoringDoes(b, e);
        }
      case Special(id) =>
        DispatchAttempts(b, id);
        if id in b.specials { AskingDoes(b, e, id, true, Step(b, e)); } else { IgnoringDoes(b, e); }
    }
  }

  lemma WindowDoes(b: Backend, r: W.Request, resolution: W.Resolution)
    requires Invariant(b) && Enabled(b, Window(r, resolution))
    ensures Does(b, Window(r, resolution), Step(b, Window(r, resolution)))
  {
    hide BeginWindow, EmitOffline, ScheduleRefresh, Invariant, ReadsAsInt, IsSpecial, W.NothingMatches, W.AnySelected, W.Valid, Does;
    Paired(b);
    if Free(b) && resolution.outcome == W.Accepted {
      var address := b.addresses[resolution.index.value];
      WindowAttempts(b, address);
      AttemptedWindowDoes(b, r, resolution, BeginWindow(b, address));
    } else {
      WaitingWindowDoes(b, r, resolution);
    }
  }

  lemma AttemptedWindowDoes(b: Backend, r: W.Request, resolution: W.Resolution, c: Backend)
    requires |b.candidates| == |b.addresses| && Enabled(b, Window(r, resolution)) && Free(b) && resolution.outcome == W.Accepted
    requires Made(b, Attempted(b, Window(r, resolution)), None, c) && Shows(b, None, false, None, c)
    requires c.history.session == b.history.session && SameQueue(b, c) && SameMemory(b, c)
    ensures Does(b, Window(r, resolution), if Refused(b) then ScheduleRefresh(EmitOffline(c)) else c)
  {
    hide W.Resolves;
  }

  lemma WaitingWindowDoes(b: Backend, r: W.Request, resolution: W.Resolution)
    requires |b.candidates| == |b.addresses| && Enabled(b, Window(r, resolution)) && !(Free(b) && resolution.outcome == W.Accepted)
    ensures Does(b, Window(r, resolution), RequestWindow(b, r, resolution).0)
  {
    hide BeginWindow, EmitOffline, ScheduleRefresh, W.NothingMatches, W.AnySelected, W.Valid;
  }

  lemma RefreshDoes(b: Backend)
    requires Invariant(b) && Enabled(b, RefreshDue)
    ensures Does(b, RefreshDue, Step(b, RefreshDue))
  {
    hide Query, TellsTruth, RefreshUnderWay, PhaseRuns;
    if Free(b) {
      QueryAttempts(b.(scheduled := false, dirty := false), Monitors, ListMonitors);
    }
  }

  lemma StreamDoes(b: Backend, e: Event)
    requires Invariant(b) && (e.StreamConnects? || e.Line?)
    ensures Does(b, e, Step(b, e))
  {
    hide Invariant, W.Resolves, ScheduleRefresh, Acts, Keeps;
    Paired(b);
    SchedulingDoesNothing(Noticed(b, e));
    StreamActs(b, e, Step(b, e));
    StreamKeeps(b, e, Step(b, e));
  }

  lemma StreamActs(b: Backend, e: Event, c: Backend)
    requires |b.candidates| == |b.addresses| && (e.StreamConnects? || e.Line?)
    requires c == Noticed(b, e).(dirty := c.dirty, scheduled := c.scheduled)
    ensures Acts(b, e, c)
  {
    hide W.Resolves;
    assert Attempted(b, e) == None && Published(b, e) == None;
    hide Attempted, Published;
  }

  lemma StreamKeeps(b: Backend, e: Event, c: Backend)
    requires |b.candidates| == |b.addresses| && (e.StreamConnects? || e.Line?)
    requires c == Noticed(b, e).(dirty := b.dirty || !Free(b), scheduled := b.scheduled || Free(b))
    ensures Keeps(b, e, c)
  {
    hide W.Resolves;
  }

  lemma SchedulingDoesNothing(b: Backend)
    ensures var c := ScheduleRefresh(b);
            && c == b.(dirty := c.dirty, scheduled := c.scheduled)
            && c.dirty == (b.dirty || !Free(b)) && c.scheduled == (b.scheduled || Free(b))
  {}

  lemma BreakDoes(b: Backend)
    requires Invariant(b)
    ensures Does(b, StreamBreaks, Step(b, StreamBreaks))
  {
    hide Invariant, W.Resolves, RunLuaActivation, RunLuaWindowActivation;
    assert |b.candidates| == |b.addresses| by { Paired(b); }
  }

  lemma Paired(b: Backend)
    requires Invariant(b)
    ensures |b.candidates| == |b.addresses|
  {}

  /** The reply has been dealt with, and the queue comes next. */
  ghost predicate BeforeDraining(b: Backend, e: Event, idle: Backend)
    requires |b.candidates| == |b.addresses| && Enabled(b, e)
  {
    && e.CommandFinishes? && Drains(b, e) && Free(idle)
    && idle.pendingWindow == b.pendingWindow && idle.pendingActivation == b.pendingActivation
    && idle.accepts == b.accepts && idle.history.sends == b.history.sends && idle.history.session == b.history.session
    && Shows(b, Published(b, e), false, e.content.parsed, idle)
    && idle.scheduled == b.scheduled && idle.dirty == (b.dirty || EndsActivation(b, e))
  }

  lemma DrainDoes(b: Backend, e: Event, idle: Backend)
    requires Invariant(b) && Enabled(b, e) && BeforeDraining(b, e, idle)
    ensures Does(b, e, Drain(idle))
  {
    hide Drain, ReadsAsInt, IsSpecial, TellsTruth, RefreshUnderWay, PhaseRuns, W.Resolves, Acts, Keeps, BroughtUp;
    DrainAttempts(idle);
    DrainActs(b, e, idle, Drain(idle));
    DrainKeepsQueue(b, e, idle, Drain(idle));
  }

  lemma DrainActs(b: Backend, e: Event, idle: Backend, c: Backend)
    requires |b.candidates| == |b.addresses| && Enabled(b, e) && BeforeDraining(b, e, idle) && BroughtUp(idle, c)
    ensures Acts(b, e, c)
  {
    hide W.Resolves, ReadsAsInt;
    SameQueued(b, e, idle);
    hide FirstQueued, Attempted, Published, Drains;
  }

  lemma DrainKeepsQueue(b: Backend, e: Event, idle: Backend, c: Backend)
    requires |b.candidates| == |b.addresses| && Enabled(b, e) && BeforeDraining(b, e, idle) && BroughtUp(idle, c)
    ensures Keeps(b, e, c)
  {
    hide W.Resolves, ReadsAsInt, Shows, Made, Published;
  }

  lemma SameQueued(b: Backend, e: Event, idle: Backend)
    requires |b.candidates| == |b.addresses| && Enabled(b, e) && BeforeDraining(b, e, idle)
    ensures FirstQueued(idle) == Attempted(b, e)
  {
    hide W.Resolves, ReadsAsInt, Shows;
  }

  lemma FailureDoes(b: Backend, content: Content)
    requires Invariant(b) && b.running.Some?
    ensures Does(b, CommandFinishes(false, content), Finished(b, false, content))
  {
    hide Drain, TellsTruth, RefreshUnderWay, PhaseRuns, WellFormed, Does;
    var offline := EmitOffline(b.(running := None, phase := Idle));
    DrainDoes(b, CommandFinishes(false, content), if Activating(b.phase) then offline.(dirty := true) else offline);
  }

  lemma QueryReplyDoes(b: Backend, content: Content)
    requires Invariant(b) && b.running.Some? && b.phase in {Idle, Monitors, Workspaces}
    ensures Does(b, CommandFinishes(true, content), Finished(b, true, content))
  {
    hide Drain, Query, TellsTruth, RefreshUnderWay, PhaseRuns, ReadsAsInt, IsSpecial;
    var b' := b.(running := None);
    match b.phase {
      case Monitors => QueryAttempts(b'.(monitors := b.running), Workspaces, ListWorkspaces);
      case Workspaces => QueryAttempts(b'.(workspaces := b.running), Clients, ListClients);
      case Idle =>
    }
  }

  lemma ClientsReplyDoes(b: Backend, content: Content)
    requires Invariant(b) && b.running.Some? && b.phase == Clients
    ensures Does(b, CommandFinishes(true, content), Finished(b, true, content))
  {
    hide Drain, TellsTruth, PhaseRuns, ReadsAsInt, IsSpecial, Does;
    var b' := b.(running := None, phase := Idle);
    DrainDoes(b, CommandFinishes(true, content), Publish(b', b.running.value, content.parsed));
  }

  lemma ActivationReplyDoes(b: Backend, content: Content)
    requires Invariant(b) && b.running.Some? && Activating(b.phase)
    ensures Does(b, CommandFinishes(true, content), Finished(b, true, content))
  {
    hide Drain, RunLuaActivation, RunLuaWindowActivation, TellsTruth, RefreshUnderWay, PhaseRuns, IsSpecial, ReadsAsInt;
    var b' := b.(running := None);
    var e := CommandFinishes(true, content);
    if content.isError && b.phase in {WorkspaceActivation, WindowActivation} {
      LuaAttempts(b');
    } else if content.isError {
      DrainDoes(b, e, EmitOffline(b'.(phase := Idle)).(phase := Idle, dirty := true));
    } else {
      DrainDoes(b, e, b'.(phase := Idle, dirty := true));
    }
  }

  lemma StepDoes(b: Backend, e: Event)
    requires Invariant(b) && Enabled(b, e)
    ensures Does(b, e, Step(b, e))
  {
    hide Does, Invariant, Step, Enabled;
    match e
    case Workspace(_) => DispatchDoes(b, e);
    case Slot(_) => DispatchDoes(b, e);
    case Special(_) => DispatchDoes(b, e);
    case Window(r, resolution) => WindowDoes(b, r, resolution);
    case CommandFinishes(success, content) =>
      assert b.running.Some? && Step(b, e) == Finished(b, success, content) by { EnabledFinishes(b, success, content); }
      if !success {
        FailureDoes(b, content);
      } else if Activating(b.phase) {
        ActivationReplyDoes(b, content);
      } else if b.phase == Clients {
        ClientsReplyDoes(b, content);
      } else {
        QueryReplyDoes(b, content);
      }
    case RefreshDue => RefreshDoes(b);
    case StreamBreaks => BreakDoes(b);
    case _ => StreamDoes(b, e);
  }

  lemma EnabledFinishes(b: Backend, success: bool, content: Content)
    requires Enabled(b, CommandFinishes(success, content))
    ensures b.running.Some? && Step(b, CommandFinishes(success, content)) == Finished(b, success, content)
  {
    hide Finished;
  }

  /**
   In every run, whatever the transport refuses, each event attempts exactly the command of the table, publishes exactly
   the snapshot of the table and one more when the command is refused, and leaves known what those snapshots say.
   */
  lemma EveryEventDoesItsPart(accepts: seq<bool>, events: seq<Event>, e: Event)
    requires Enabled(Run(accepts, events), e)
    ensures |Run(accepts, events).candidates| == |Run(accepts, events).addresses|
    ensures Does(Run(accepts, events), e, Step(Run(accepts, events), e))
  {
    EveryRunKeepsInvariant(accepts, events);
    StepDoes(Run(accepts, events), e);
    hide Does, Step, Run;
  }

  /** At first the machine is idle, remembers and knows nothing and has published nothing. */
  lemma AtFirst(accepts: seq<bool>)
    ensures var b := Run(accepts, []);
            && Free(b) && !b.dirty && !b.scheduled && b.pendingWindow == None && b.pendingActivation == "" && b.accepts == accepts
            && b.assignments == map[] && b.specials == [] && b.candidates == [] && b.addresses == [] && b.urgent == {}
            && b.history.published == []
  {}
}
