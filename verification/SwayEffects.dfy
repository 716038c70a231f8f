/**
 What each event makes SwayBackend do, as tables over what can be observed: the commands it tries to send, the snapshots
 it publishes, and whether the session ends. The machine is shown to do exactly that, whichever writes fail.
 */
module SwayEffects {
  import opened Prelude
  import opened SwayGuarantees
  import opened SwaySession
  import W = WindowActivation

  // ---------------------------------------------------------------- the tables

  /** The first thing in the queue that can be done: a window, or else a workspace by slot or by known name. */
  function FirstQueued(window: Option<nat>, workspace: Option<Activation>, names: map<string, string>): Option<Command> {
    match window
    case Some(container) => Some(FocusWindow(container))
    case None =>
      match workspace
      case None => None
      case Some(a) =>
        if a.slot > 0 then Some(FocusSlot(a.slot)) else if a.id in names then Some(FocusName(names[a.id])) else None
  }

  predicate Ready(b: Backend) {
    b.request == Connected && b.phase == Idle
  }

  /** The command the event makes the machine try to send. */
  function Tried(b: Backend, e: Event): Option<Command>
    requires |b.candidates| == |b.containers|
    requires e.Window? ==> W.Resolves(e.r, b.candidates, e.resolution)
  {
    match e
    case RefreshTimeout => if Ready(b) then Some(GetWorkspaces) else None
    case Answered(content) =>
      (match b.phase
       case Idle => None
       case Workspaces => Some(GetOutputs)
       case Outputs => Some(GetTree)
       case _ => FirstQueued(b.pendingWindow, b.pendingActivation, NamesThen(b, content)))
    case Workspace(id) => if Ready(b) && id in b.names then Some(FocusName(b.names[id])) else None
    case Slot(slot) => if Ready(b) && slot > 0 then Some(FocusSlot(slot)) else None
    case Window(_, resolution) =>
      if Ready(b) && resolution.outcome == W.Accepted then Some(FocusWindow(b.containers[resolution.index.value])) else None
    case _ => None
  }

  /** The names known once a tree or the answer to an activation has been dealt with. */
  function NamesThen(b: Backend, content: Content): map<string, string> {
    if b.phase == Tree then if content.parsed.Some? then content.parsed.value.names else map[]
    else if content.success then b.names else map[]
  }

  /** After a workspace could not be written the queue is brought up, now without any names. */
  function TriedNext(b: Backend, e: Event): Option<Command>
    requires |b.candidates| == |b.containers|
    requires e.Window? ==> W.Resolves(e.r, b.candidates, e.resolution)
  {
    if (e.Workspace? || e.Slot?) && Tried(b, e).Some? && !NextWrite(b)
    then FirstQueued(b.pendingWindow, b.pendingActivation, map[]) else None
  }

  /** The session ends: a socket is lost, Sway says something unexpected, or a query cannot be written. */
  predicate Ends(b: Backend, e: Event) {
    match e
    case RequestLost => true
    case SubscriptionLost => true
    case UnexpectedFrame(_) => true
    case MalformedData => true
    case MalformedEvents => true
    case Subscribed(kind, accepted) => if b.subscriptionReady then kind < 0x8000_0000 else kind != 2 || !accepted
    case RefreshTimeout => Ready(b) && !NextWrite(b)
    case Answered(_) => b.phase in {Workspaces, Outputs} && !NextWrite(b)
    case _ => false
  }

  /** The snapshot the event publishes before anything is tried. */
  function Published(b: Backend, e: Event): Option<Snapshot> {
    match e
    case Answered(content) =>
      if b.phase == Tree && b.history.wire != [] then
        if content.parsed.Some? && b.workspaces.Some? && b.outputs.Some?
        then Some(Online(b.workspaces.value, b.outputs.value, b.history.wire[0])) else Some(Offline)
      else if Activating(b.phase) && !content.success then Some(Offline)
      else None
    case Subscribed(_, _) => if Ends(b, e) then Some(Offline) else None
    case MalformedEvents => Some(Offline)
    case _ => None
  }

  // ---------------------------------------------------------------- what an operation did

  predicate FailedTry(b: Backend, command: Option<Command>) {
    command.Some? && !NextWrite(b)
  }

  /** The command was written, or the write failed. */
  predicate Wrote(b: Backend, command: Option<Command>, c: Backend) {
    match command
    case None => c.writes == b.writes && c.history.wire == b.history.wire && c.history.sends == b.history.sends
    case Some(d) =>
      && c.writes == (if b.writes == [] then [] else b.writes[1..])
      && c.history.wire == b.history.wire + (if NextWrite(b) then [Sent(b.history.sends, b.history.session, d)] else [])
      && c.history.sends == b.history.sends + (if NextWrite(b) then 1 else 0)
  }

  predicate SameWindows(b: Backend, c: Backend) {
    c.candidates == b.candidates && c.containers == b.containers && c.history.tree == b.history.tree
  }

  /** One more offline snapshot forgets the names; without it nothing is published or forgotten. */
  predicate OfflineIf(b: Backend, offline: bool, c: Backend) {
    if offline then c.history.published == b.history.published + [Offline] && c.names == map[] && c.numbered == NO_NUMBERS
    else c.history.published == b.history.published && c.names == b.names && c.numbered == b.numbered
  }

  predicate SameSession(b: Backend, c: Backend) {
    && c.request == b.request && c.subscription == b.subscription && c.subscriptionReady == b.subscriptionReady
    && c.reconnectTimer == b.reconnectTimer && c.reconnectDelay == b.reconnectDelay && c.history.session == b.history.session
    && c.history.owed == b.history.owed
  }

  ghost predicate OnlyTries(b: Backend, command: Option<Command>, c: Backend) {
    && Wrote(b, command, c) && OfflineIf(b, FailedTry(b, command), c) && SameWindows(b, c) && SameSession(b, c)
    && c.phase == (if command.None? || !NextWrite(b) then Idle
                   else if command.value.FocusWindow? then WindowActivation else WorkspaceActivation)
  }

  lemma WindowTries(b: Backend, container: nat)
    requires b.phase == Idle
    ensures var c := BeginWindow(b, container);
            && OnlyTries(b, Some(FocusWindow(container)), if NextWrite(b) then c else Fail(c))
            && c.pendingWindow == b.pendingWindow && c.pendingActivation == b.pendingActivation
            && c.dirty == b.dirty && c.refreshTimer == b.refreshTimer
  {}

  lemma EmptyDrain(b: Backend)
    requires b.phase == Idle && b.pendingWindow == None && b.pendingActivation == None
    ensures Drain(b) == b.(refreshTimer := b.refreshTimer || b.dirty)
  {}

  /** What a write of a workspace command leaves behind, before anything else is brought up. */
  ghost function Written(b: Backend, command: Command): Backend {
    var c := Send(b.(phase := WorkspaceActivation), command);
    if NextWrite(b) then c else Fail(c.(phase := Idle)).(dirty := true)
  }

  lemma WrittenTries(b: Backend, command: Command)
    requires b.phase == Idle && !command.FocusWindow?
    ensures OnlyTries(b, Some(command), Written(b, command))
    ensures Written(b, command).pendingWindow == b.pendingWindow && Written(b, command).pendingActivation == b.pendingActivation
    ensures Written(b, command).dirty == (b.dirty || !NextWrite(b)) && Written(b, command).refreshTimer == b.refreshTimer
  {
    hide OnlyTries;
    if NextWrite(b) {
      WriteSucceeds(b, command);
    } else {
      WriteFails(b, command);
    }
  }

  lemma WriteSucceeds(b: Backend, command: Command)
    requires b.phase == Idle && !command.FocusWindow? && NextWrite(b)
    ensures OnlyTries(b, Some(command), Written(b, command))
  {
    hide Fail;
  }

  lemma WriteFails(b: Backend, command: Command)
    requires b.phase == Idle && !command.FocusWindow? && !NextWrite(b)
    ensures OnlyTries(b, Some(command), Written(b, command))
  {
    assert b.history.wire + [] == b.history.wire;
  }

  lemma DispatchWrites(b: Backend, a: Activation)
    requires b.request == Connected && b.phase == Idle && (a.slot > 0 || a.id in b.names)
    ensures var c := Written(b, if a.slot > 0 then FocusSlot(a.slot) else FocusName(b.names[a.id]));
            Dispatch(b, a) == if NextWrite(b) then c else Drain(c)
  {
    hide Drain;
  }

  lemma WorkspaceTries(b: Backend, a: Activation)
    requires b.request == Connected && b.phase == Idle && b.pendingWindow == None && b.pendingActivation == None
    ensures OnlyTries(b, FirstQueued(None, Some(a), b.names), Dispatch(b, a))
    ensures Dispatch(b, a).pendingWindow == None && Dispatch(b, a).pendingActivation == None
    ensures var tried := FirstQueued(None, Some(a), b.names);
            && Dispatch(b, a).dirty == (b.dirty || FailedTry(b, tried))
            && Dispatch(b, a).refreshTimer == (b.refreshTimer || if tried.Some? then !NextWrite(b) else b.dirty)
  {
    hide Drain, Written;
    if a.slot > 0 || a.id in b.names {
      var command := if a.slot > 0 then FocusSlot(a.slot) else FocusName(b.names[a.id]);
      DispatchWrites(b, a);
      WrittenTries(b, command);
      if !NextWrite(b) { EmptyDrain(Written(b, command)); }
      hide Dispatch;
    } else {
      EmptyDrain(b);
    }
  }

  /** What was tried does not depend on what was queued or remembered. */
  lemma TriesAlike(b: Backend, b': Backend, command: Option<Command>, c: Backend, c': Backend)
    requires OnlyTries(b', command, c')
    requires b' == b.(pendingWindow := b'.pendingWindow, pendingActivation := b'.pendingActivation)
    requires c == c'.(dirty := c.dirty, refreshTimer := c.refreshTimer)
    ensures OnlyTries(b, command, c)
  {}

  lemma DrainWindowTries(b: Backend)
    requires b.phase == Idle && b.pendingWindow.Some?
    ensures OnlyTries(b, Some(FocusWindow(b.pendingWindow.value)), Drain(b))
    ensures Drain(b).pendingWindow == None && Drain(b).pendingActivation == b.pendingActivation
    ensures Drain(b).dirty == (b.dirty || !NextWrite(b)) && Drain(b).refreshTimer == (b.refreshTimer || !NextWrite(b))
  {
    hide Dispatch, OnlyTries;
    var b' := b.(pendingWindow := None);
    var c := BeginWindow(b', b.pendingWindow.value);
    WindowTries(b', b.pendingWindow.value);
    var c' := if NextWrite(b) then c else Fail(c);
    assert NextWrite(b) <==> NextWrite(b');
    assert Drain(b) == c'.(dirty := Drain(b).dirty, refreshTimer := Drain(b).refreshTimer) by { hide Send; }
    TriesAlike(b, b', Some(FocusWindow(b.pendingWindow.value)), Drain(b), c');
  }

  /** The first thing in the queue was tried, and what was not tried stays queued. */
  ghost predicate BroughtUp(b: Backend, c: Backend) {
    var tried := FirstQueued(b.pendingWindow, b.pendingActivation, b.names);
    && OnlyTries(b, tried, c)
    && c.pendingWindow == None && c.pendingActivation == (if b.pendingWindow.Some? then b.pendingActivation else None)
    && c.dirty == (b.dirty || FailedTry(b, tried))
    && c.refreshTimer == (b.refreshTimer || if tried.Some? then !NextWrite(b) else b.dirty)
  }

  lemma DrainTries(b: Backend)
    requires b.request == Connected && b.phase == Idle
    ensures BroughtUp(b, Drain(b))
  {
    hide Dispatch, BeginWindow, Fail;
    if b.pendingWindow.Some? {
      DrainWindowTries(b);
    } else if b.pendingActivation.Some? {
      var b', a := b.(pendingActivation := None), b.pendingActivation.value;
      WorkspaceTries(b', a);
      assert Drain(b) == Dispatch(b', a);
      TriesAlike(b, b', FirstQueued(None, Some(a), b.names), Drain(b), Drain(b));
    } else {
      EmptyDrain(b);
    }
  }

  // ---------------------------------------------------------------- every event does what the tables say

  /** The names and numbers that the last snapshot leaves: those of the refresh when online, none when offline. */
  predicate Knows(b: Backend, e: Event, own: Option<Snapshot>, offline: bool, c: Backend) {
    if offline || own == Some(Offline) then c.names == map[] && c.numbered == NO_NUMBERS
    else if own.Some? && e.Answered? && e.content.parsed.Some? then
      c.names == e.content.parsed.value.names && c.numbered == e.content.parsed.value.numbered
    else c.names == b.names && c.numbered == b.numbered
  }

  /** The windows are those of the last refresh taken over in the session. */
  predicate KnowsWindows(b: Backend, e: Event, own: Option<Snapshot>, c: Backend) {
    if Ends(b, e) then c.candidates == [] && c.containers == []
    else if own.Some? && own.value.Online? && e.Answered? && e.content.parsed.Some? then
      c.candidates == Lefts(e.content.parsed.value.windows) && c.containers == Rights(e.content.parsed.value.windows)
    else c.candidates == b.candidates && c.containers == b.containers
  }

  /** A reply brings up the queue: the one that ends a refresh or an activation. */
  predicate Drains(b: Backend, e: Event) {
    e.Answered? && (b.phase == Tree || Activating(b.phase))
  }

  function QueuedWindow(b: Backend, e: Event): Option<nat>
    requires |b.candidates| == |b.containers|
    requires e.Window? ==> W.Resolves(e.r, b.candidates, e.resolution)
  {
    if Ends(b, e) || Drains(b, e) then None
    else if (e.Workspace? || e.Slot?) && FailedTry(b, Tried(b, e)) then None
    else if e.Window? && e.resolution.outcome == W.Accepted && b.request == Connected && b.phase != Idle && b.pendingWindow == None
    then Some(b.containers[e.resolution.index.value])
    else b.pendingWindow
  }

  function QueuedWorkspace(b: Backend, e: Event): Option<Activation>
    requires |b.candidates| == |b.containers|
    requires e.Window? ==> W.Resolves(e.r, b.candidates, e.resolution)
  {
    if Ends(b, e) then None
    else if Drains(b, e) || ((e.Workspace? || e.Slot?) && FailedTry(b, Tried(b, e))) then
      if b.pendingWindow.Some? then b.pendingActivation else None
    else if e.Workspace? && e.id in b.names && b.request == Connected && b.phase != Idle then Some(Activation(e.id, 0))
    else if e.Slot? && e.slot > 0 && b.request == Connected && b.phase != Idle then Some(Activation("", e.slot))
    else b.pendingActivation
  }

  /** Something that a later refresh has to show: the connection itself, or an event of the subscription. */
  predicate Notices(b: Backend, e: Event) {
    e.RequestConnected? || (e.Subscribed? && b.subscriptionReady && !Ends(b, e))
  }

  /** A refresh is remembered: after anything noticed while busy, an activation, or a failed write. */
  predicate Dirty(b: Backend, e: Event)
    requires |b.candidates| == |b.containers|
    requires e.Window? ==> W.Resolves(e.r, b.candidates, e.resolution)
  {
    if Ends(b, e) then false
    else if Notices(b, e) then b.dirty || b.phase != Idle
    else if e.RefreshTimeout? then b.dirty && !Ready(b)
    else if Drains(b, e) then b.dirty || Activating(b.phase) || FailedTry(b, Tried(b, e))
    else if e.Workspace? || e.Slot? then b.dirty || FailedTry(b, Tried(b, e))
    else b.dirty
  }

  /** The timer of the next refresh runs: when nothing else is tried, or after a failed write. */
  predicate TimerRuns(b: Backend, e: Event)
    requires |b.candidates| == |b.containers|
    requires e.Window? ==> W.Resolves(e.r, b.candidates, e.resolution)
  {
    if e.RefreshTimeout? then false
    else if Notices(b, e) then b.refreshTimer || b.phase == Idle
    else if Drains(b, e) then
      b.refreshTimer || if Tried(b, e).Some? then !NextWrite(b) else b.dirty || Activating(b.phase)
    else if (e.Workspace? || e.Slot?) && FailedTry(b, Tried(b, e)) then b.refreshTimer || SentBy(b, e) == None
    else if e.Window? then b.refreshTimer || FailedTry(b, Tried(b, e))
    else b.refreshTimer
  }

  /** How many offline snapshots failed writes add, and the one of an ending session. */
  function Setbacks(b: Backend, e: Event): nat
    requires |b.candidates| == |b.containers|
    requires e.Window? ==> W.Resolves(e.r, b.candidates, e.resolution)
  {
    if Ends(b, e) then 1
    else (if FailedTry(b, Tried(b, e)) then 1 else 0) + (if TriedNext(b, e).Some? && b.writes[1..] != [] && !b.writes[1] then 1 else 0)
  }

  function Offlines(n: nat): seq<Snapshot> {
    seq(n, _ => Offline)
  }

  /** What was sent: the command tried, or after it failed the next one. */
  function SentBy(b: Backend, e: Event): Option<Command>
    requires |b.candidates| == |b.containers|
    requires e.Window? ==> W.Resolves(e.r, b.candidates, e.resolution)
  {
    if NextWrite(b) then Tried(b, e)
    else if TriedNext(b, e).Some? && (b.writes[1..] == [] || b.writes[1]) then TriedNext(b, e)
    else None
  }

  /** A session that ends leaves nothing behind, and one reconnect is due after twice the last delay, at most 30 seconds. */
  predicate Ended(b: Backend, c: Backend) {
    && c.request == Unconnected && c.subscription == Unconnected && c.phase == Idle && c.history.wire == [] && c.workspaces == None && c.outputs == None
    && c.pendingWindow == None && c.pendingActivation == None && !c.dirty
    && c.history.session == b.history.session + 1
    && c.reconnectTimer && c.reconnectDelay == (if b.reconnectDelay < 15000 then 2 * b.reconnectDelay else 30000)
  }

  /** The session goes on: what was sent is on the wire behind what is still unanswered. */
  ghost predicate GoesOn(b: Backend, e: Event, c: Backend)
    requires |b.candidates| == |b.containers| && Enabled(b, e)
  {
    && c.history.session == b.history.session
    && (var waiting := if e.Answered? then b.history.wire[1..] else b.history.wire;
        match SentBy(b, e)
        case None => c.history.wire == waiting && c.history.sends == b.history.sends
        case Some(d) =>
          c.history.wire == waiting + [Sent(b.history.sends, b.history.session, d)] && c.history.sends == b.history.sends + 1)
    && c.reconnectDelay == if e.Answered? && b.phase == Tree && e.content.parsed.Some? then 1000 else b.reconnectDelay
  }

  /** The two sockets, whether the subscription was accepted, and whether a reconnect is due. */
  predicate Sockets(b: Backend, e: Event, c: Backend) {
    match e
    case Start => c.request == Connecting && c.subscription == Connecting && !c.subscriptionReady && c.reconnectTimer == b.reconnectTimer
    case ReconnectTimeout => c.request == Connecting && c.subscription == Connecting && !c.subscriptionReady && !c.reconnectTimer
    case _ =>
      && c.request == (if e.RequestConnected? then Connected else if e.RequestRefused? then Unconnected else b.request)
      && c.subscription == (if e.SubscriptionConnected? then Connected else if e.SubscriptionRefused? then Unconnected else b.subscription)
      && c.subscriptionReady == (b.subscriptionReady || e.Subscribed?) && c.reconnectTimer == b.reconnectTimer
  }

  /** The snapshots published, and what they leave known. */
  ghost predicate Shown(b: Backend, e: Event, c: Backend)
    requires |b.candidates| == |b.containers| && Enabled(b, e)
  {
    var own := Published(b, e);
    && c.history.published == b.history.published + (if own.Some? then [own.value] else []) + Offlines(Setbacks(b, e))
    && Knows(b, e, own, Setbacks(b, e) > 0, c) && KnowsWindows(b, e, own, c)
  }

  /** What is queued and remembered for later. */
  ghost predicate Remembers(b: Backend, e: Event, c: Backend)
    requires |b.candidates| == |b.containers| && Enabled(b, e)
  {
    && c.pendingWindow == QueuedWindow(b, e) && c.pendingActivation == QueuedWorkspace(b, e)
    && c.dirty == Dirty(b, e) && c.refreshTimer == TimerRuns(b, e)
    && c.history.owed == ((b.history.owed && !(e.RefreshTimeout? && Ready(b))) || Notices(b, e))
  }

  /** The session ends or goes on. */
  ghost predicate Proceeds(b: Backend, e: Event, c: Backend)
    requires |b.candidates| == |b.containers| && Enabled(b, e)
  {
    if Ends(b, e) then Ended(b, c) else GoesOn(b, e, c) && Sockets(b, e, c)
  }

  /** The event did what the tables say. */
  ghost predicate Does(b: Backend, e: Event, c: Backend)
    requires |b.candidates| == |b.containers| && Enabled(b, e)
  {
    Shown(b, e, c) && Remembers(b, e, c) && Proceeds(b, e, c)
  }

  /** The session is about to end: what the event publishes before is published. */
  ghost predicate BeforeEnding(b: Backend, e: Event, own: Backend)
    requires |b.candidates| == |b.containers| && Enabled(b, e)
  {
    && Ends(b, e) && !b.reconnectTimer
    && own.refreshTimer == (b.refreshTimer && !e.RefreshTimeout?)
    && own.history.owed == (b.history.owed && !(e.RefreshTimeout? && Ready(b)))
    && own.reconnectTimer == b.reconnectTimer && own.reconnectDelay == b.reconnectDelay && own.history.session == b.history.session
    && own.history.published == b.history.published + (if Published(b, e).Some? then [Offline] else [])
  }

  lemma DisconnectEndsSession(b: Backend, e: Event, own: Backend)
    requires |b.candidates| == |b.containers| && Enabled(b, e) && BeforeEnding(b, e, own)
    ensures Does(b, e, Disconnect(own))
  {
    hide W.Resolves, Shown, Remembers, Proceeds, BeforeEnding, Disconnect, Enabled;
    EndingShows(b, e, own);
    EndingRemembers(b, e, own);
    EndingEnds(b, e, own);
  }

  lemma EndingShows(b: Backend, e: Event, own: Backend)
    requires |b.candidates| == |b.containers| && Enabled(b, e) && BeforeEnding(b, e, own)
    ensures Shown(b, e, Disconnect(own))
  {
    hide W.Resolves, Enabled, Tried, TriedNext;
    assert Offlines(1) == [Offline];
    assert Published(b, e).Some? ==> Published(b, e) == Some(Offline);
  }

  lemma EndingRemembers(b: Backend, e: Event, own: Backend)
    requires |b.candidates| == |b.containers| && Enabled(b, e) && BeforeEnding(b, e, own)
    ensures Remembers(b, e, Disconnect(own))
  {
    hide W.Resolves, Enabled, Tried, TriedNext, Published;
    EndingEvents(b, e);
    hide Ends;
  }

  /** Which events can end a session. */
  lemma EndingEvents(b: Backend, e: Event)
    requires Ends(b, e)
    ensures !Drains(b, e) && !Notices(b, e) && !e.Workspace? && !e.Slot? && !e.Window?
  {}

  lemma EndingEnds(b: Backend, e: Event, own: Backend)
    requires |b.candidates| == |b.containers| && Enabled(b, e) && BeforeEnding(b, e, own)
    ensures Proceeds(b, e, Disconnect(own))
  {
    hide W.Resolves, Enabled, Tried, TriedNext, Published, GoesOn, Sockets;
  }

  /** Aborting the sockets reports the loss once more; a session that has ended is not ended again. */
  lemma DisconnectingTwiceIsOnce(b: Backend)
    ensures Disconnect(Disconnect(b)) == Disconnect(b)
  {}

  /** Only the sockets change. */
  lemma OnlySocketsDo(b: Backend, e: Event, c: Backend)
    requires |b.candidates| == |b.containers| && Enabled(b, e)
    requires e.Start? || e.ReconnectTimeout? || e.SubscriptionConnected? || e.RequestRefused? || e.SubscriptionRefused?
    requires Sockets(b, e, c)
    requires c == b.(request := c.request, subscription := c.subscription, subscriptionReady := c.subscriptionReady,
                     reconnectTimer := c.reconnectTimer, phase := c.phase)
    ensures Does(b, e, c)
  {
    hide W.Resolves, Ended, FirstQueued, Sockets, Enabled;
    assert Offlines(0) == [];
    assert !Ends(b, e) && Published(b, e) == None && Tried(b, e) == None && TriedNext(b, e) == None;
    hide Ends, Published, Tried, TriedNext;
  }

  lemma ConnectingDoes(b: Backend, e: Event)
    requires Invariant(b) && Enabled(b, e)
    requires e.Start? || e.ReconnectTimeout? || e.SubscriptionConnected? || e.RequestRefused? || e.SubscriptionRefused?
    ensures Does(b, e, Step(b, e))
  {
    hide TellsTruth, WorkConserved, RefreshUnderWay, W.Resolves, Disconnect, Drain, Dispatch, BeginRefresh, Reply, Does, Notice;
    OnlySocketsDo(b, e, Step(b, e));
  }

  lemma ConnectedDoes(b: Backend)
    requires Invariant(b) && b.request == Connecting
    ensures Does(b, RequestConnected, Step(b, RequestConnected))
  {
    hide TellsTruth, WorkConserved, RefreshUnderWay, W.Resolves, Disconnect, Drain, Dispatch, BeginRefresh, Reply, Ended, FirstQueued;
    var e := RequestConnected;
    assert Offlines(0) == [];
    assert !Ends(b, e) && Published(b, e) == None && Tried(b, e) == None && TriedNext(b, e) == None;
    hide Ends, Published, Tried, TriedNext;
  }

  lemma EndingDoes(b: Backend, e: Event)
    requires Invariant(b) && Enabled(b, e)
    requires e.RequestLost? || e.SubscriptionLost? || e.UnexpectedFrame? || e.MalformedData? || e.MalformedEvents?
    ensures Does(b, e, Step(b, e))
  {
    hide TellsTruth, WorkConserved, RefreshUnderWay, W.Resolves, Disconnect, Does, Drain, Dispatch, BeginRefresh, Reply;
    match e {
      case RequestLost => DisconnectEndsSession(b, e, b.(request := Unconnected));
      case SubscriptionLost => DisconnectEndsSession(b, e, b.(subscription := Unconnected));
      case MalformedEvents => DisconnectEndsSession(b, e, Fail(b));
      case _ => DisconnectEndsSession(b, e, b);
    }
  }

  lemma SubscribedDoes(b: Backend, kind: nat, accepted: bool)
    requires Invariant(b) && Enabled(b, Subscribed(kind, accepted))
    ensures Does(b, Subscribed(kind, accepted), Step(b, Subscribed(kind, accepted)))
  {
    hide TellsTruth, WorkConserved, RefreshUnderWay, W.Resolves, Disconnect, Does, Notice;
    var e := Subscribed(kind, accepted);
    assert kind / EVENT_BIT % 2 == 0 <==> kind < 0x8000_0000;
    if Ends(b, e) {
      DisconnectEndsSession(b, e, Fail(b));
    } else {
      AcceptedDoes(b, kind, accepted);
    }
  }

  lemma AcceptedDoes(b: Backend, kind: nat, accepted: bool)
    requires |b.candidates| == |b.containers| && Enabled(b, Subscribed(kind, accepted)) && !Ends(b, Subscribed(kind, accepted))
    ensures Does(b, Subscribed(kind, accepted), if b.subscriptionReady then Notice(b) else b.(subscriptionReady := true))
  {
    hide W.Resolves, Ended, FirstQueued;
    var e := Subscribed(kind, accepted);
    assert Offlines(0) == [];
    assert Published(b, e) == None && Tried(b, e) == None && TriedNext(b, e) == None;
    hide Published, Tried, TriedNext;
  }

  lemma RefreshDoes(b: Backend)
    requires Invariant(b) && b.refreshTimer
    ensures Does(b, RefreshTimeout, Step(b, RefreshTimeout))
  {
    hide TellsTruth, WorkConserved, RefreshUnderWay, W.Resolves, Disconnect;
    assert Offlines(0) == [];
    if Ready(b) && !NextWrite(b) {
      DisconnectEndsSession(b, RefreshTimeout,
        Send(b.(refreshTimer := false, dirty := false, workspaces := None, outputs := None, phase := Workspaces,
                history := b.history.(owed := false)), GetWorkspaces));
    }
  }

  lemma QueryReplyDoes(b: Backend, content: Content)
    requires Invariant(b) && Enabled(b, Answered(content)) && b.phase in {Workspaces, Outputs}
    ensures Does(b, Answered(content), Step(b, Answered(content)))
  {
    hide TellsTruth, WorkConserved, RefreshUnderWay, W.Resolves, Disconnect, FinishRefresh, FinishActivation, Receivable, Does;
    if NextWrite(b) {
      QueryWritten(b, content);
    } else {
      var b' := b.(history := b.history.(wire := b.history.wire[1..]));
      DisconnectEndsSession(b, Answered(content),
        if b.phase == Workspaces then Send(b'.(workspaces := Some(b.history.wire[0]), phase := Outputs), GetOutputs)
        else Send(b'.(outputs := Some(b.history.wire[0]), phase := Tree), GetTree));
    }
  }

  lemma QueryWritten(b: Backend, content: Content)
    requires Invariant(b) && Enabled(b, Answered(content)) && b.phase in {Workspaces, Outputs} && NextWrite(b)
    ensures Does(b, Answered(content), Reply(b, content))
  {
    hide TellsTruth, WorkConserved, RefreshUnderWay, W.Resolves, Disconnect, FinishRefresh, FinishActivation, Receivable;
    assert Offlines(0) == [];
  }

  /** The reply to a tree or an activation has been dealt with, and the queue comes next. */
  ghost predicate BeforeDraining(b: Backend, content: Content, idle: Backend)
    requires |b.candidates| == |b.containers| && Enabled(b, Answered(content))
  {
    var e := Answered(content);
    var own := Published(b, e);
    && (b.phase == Tree || Activating(b.phase)) && Ready(idle)
    && idle.pendingWindow == b.pendingWindow && idle.pendingActivation == b.pendingActivation
    && idle.writes == b.writes && idle.names == NamesThen(b, content)
    && idle.history.published == b.history.published + (if own.Some? then [own.value] else [])
    && Knows(b, e, own, false, idle) && KnowsWindows(b, e, own, idle)
    && idle.history.wire == b.history.wire[1..] && idle.history.sends == b.history.sends
    && idle.history.session == b.history.session && idle.history.owed == b.history.owed && Sockets(b, e, idle)
    && idle.refreshTimer == b.refreshTimer && idle.dirty == (b.dirty || Activating(b.phase))
    && idle.reconnectDelay == if b.phase == Tree && content.parsed.Some? then 1000 else b.reconnectDelay
  }

  lemma DrainDoes(b: Backend, content: Content, idle: Backend)
    requires |b.candidates| == |b.containers| && Enabled(b, Answered(content)) && BeforeDraining(b, content, idle)
    ensures Does(b, Answered(content), Drain(idle))
  {
    hide Drain, Shown, Remembers, Proceeds, BeforeDraining, BroughtUp, W.Resolves, Receivable;
    assert Ready(idle) by { ReadyBefore(b, content, idle); }
    DrainTries(idle);
    DrainShows(b, content, idle, Drain(idle));
    DrainRemembers(b, content, idle, Drain(idle));
    DrainProceeds(b, content, idle, Drain(idle));
  }

  lemma ReadyBefore(b: Backend, content: Content, idle: Backend)
    requires |b.candidates| == |b.containers| && Enabled(b, Answered(content)) && BeforeDraining(b, content, idle)
    ensures Ready(idle)
  {
    hide W.Resolves, Receivable;
  }

  lemma SameTry(b: Backend, content: Content, idle: Backend)
    requires |b.candidates| == |b.containers| && Enabled(b, Answered(content)) && BeforeDraining(b, content, idle)
    ensures var e := Answered(content);
            && !Ends(b, e) && TriedNext(b, e) == None && Drains(b, e) && (NextWrite(idle) <==> NextWrite(b))
            && FirstQueued(idle.pendingWindow, idle.pendingActivation, idle.names) == Tried(b, e)
  {
    hide W.Resolves, Receivable, FirstQueued;
  }

  lemma DrainShows(b: Backend, content: Content, idle: Backend, c: Backend)
    requires |b.candidates| == |b.containers| && Enabled(b, Answered(content)) && BeforeDraining(b, content, idle) && BroughtUp(idle, c)
    ensures Shown(b, Answered(content), c)
  {
    hide W.Resolves, Receivable, FirstQueued;
    SameTry(b, content, idle);
    hide Tried, TriedNext, Ends;
    assert Offlines(0) == [] && Offlines(1) == [Offline];
  }

  lemma DrainRemembers(b: Backend, content: Content, idle: Backend, c: Backend)
    requires |b.candidates| == |b.containers| && Enabled(b, Answered(content)) && BeforeDraining(b, content, idle) && BroughtUp(idle, c)
    ensures Remembers(b, Answered(content), c)
  {
    hide W.Resolves, Receivable, FirstQueued, Published, Knows, KnowsWindows;
    SameTry(b, content, idle);
    hide Tried, TriedNext, Ends;
  }

  lemma DrainProceeds(b: Backend, content: Content, idle: Backend, c: Backend)
    requires |b.candidates| == |b.containers| && Enabled(b, Answered(content)) && BeforeDraining(b, content, idle) && BroughtUp(idle, c)
    ensures Proceeds(b, Answered(content), c)
  {
    hide W.Resolves, Receivable, FirstQueued, Published, Knows, KnowsWindows;
    SameTry(b, content, idle);
    hide Tried, TriedNext, Ends;
  }

  lemma TreeReplyDoes(b: Backend, content: Content)
    requires Invariant(b) && Enabled(b, Answered(content)) && b.phase == Tree
    ensures Does(b, Answered(content), Step(b, Answered(content)))
  {
    hide Drain, Does, TellsTruth, WorkConserved, RefreshUnderWay, W.Resolves, Receivable, BeforeDraining, Install, Fail;
    var b' := b.(history := b.history.(wire := b.history.wire[1..]), phase := Idle);
    if content.parsed.Some? {
      InstallReady(b, content);
      DrainDoes(b, content, Install(b', content.parsed.value, b.history.wire[0]));
    } else {
      BadTreeReady(b, content);
      DrainDoes(b, content, Fail(b'));
    }
  }

  lemma InstallReady(b: Backend, content: Content)
    requires Invariant(b) && Enabled(b, Answered(content)) && b.phase == Tree && content.parsed.Some?
    ensures BeforeDraining(b, content, Install(b.(history := b.history.(wire := b.history.wire[1..]), phase := Idle),
                                               content.parsed.value, b.history.wire[0]))
  {
    hide TellsTruth, WorkConserved, W.Resolves, Receivable;
  }

  lemma BadTreeReady(b: Backend, content: Content)
    requires Invariant(b) && Enabled(b, Answered(content)) && b.phase == Tree && content.parsed.None?
    ensures BeforeDraining(b, content, Fail(b.(history := b.history.(wire := b.history.wire[1..]), phase := Idle)))
  {
    hide TellsTruth, WorkConserved, RefreshUnderWay, W.Resolves, Receivable;
  }

  lemma ActivationReplyDoes(b: Backend, content: Content)
    requires Invariant(b) && Enabled(b, Answered(content)) && Activating(b.phase)
    ensures Does(b, Answered(content), Step(b, Answered(content)))
  {
    hide Drain, Does, TellsTruth, WorkConserved, RefreshUnderWay, W.Resolves, Receivable;
    var b' := b.(history := b.history.(wire := b.history.wire[1..]), phase := Idle);
    DrainDoes(b, content, (if content.success then b' else Fail(b')).(dirty := true));
  }

  lemma WindowDoes(b: Backend, r: W.Request, resolution: W.Resolution)
    requires Invariant(b) && Enabled(b, Window(r, resolution))
    ensures Does(b, Window(r, resolution), Step(b, Window(r, resolution)))
  {
    hide TellsTruth, WorkConserved, RefreshUnderWay, W.NothingMatches, W.AnySelected, W.Valid, BeginWindow, Does;
    if Ready(b) && resolution.outcome == W.Accepted {
      var container := b.containers[resolution.index.value];
      var c := BeginWindow(b, container);
      WindowTries(b, container);
      TriedDoes(b, Window(r, resolution), FocusWindow(container), if NextWrite(b) then c else Fail(c),
                if NextWrite(b) then c else ScheduleRefresh(Fail(c)));
    } else {
      UntriedWindowDoes(b, r, resolution);
    }
  }

  lemma TriedDoes(b: Backend, e: Event, command: Command, tried: Backend, c: Backend)
    requires |b.candidates| == |b.containers| && Enabled(b, e) && e.Window?
    requires Ready(b) && Tried(b, e) == Some(command) && OnlyTries(b, Some(command), tried)
    requires tried.pendingWindow == b.pendingWindow && tried.pendingActivation == b.pendingActivation
    requires tried.dirty == b.dirty && c == tried.(refreshTimer := b.refreshTimer || !NextWrite(b))
    ensures Does(b, e, c)
  {
    hide W.Resolves;
    assert Offlines(0) == [] && Offlines(1) == [Offline];
  }

  lemma UntriedWindowDoes(b: Backend, r: W.Request, resolution: W.Resolution)
    requires |b.candidates| == |b.containers| && Enabled(b, Window(r, resolution))
    requires !(Ready(b) && resolution.outcome == W.Accepted)
    ensures Does(b, Window(r, resolution), Step(b, Window(r, resolution)))
  {
    hide RequestWindow, W.Resolves;
    assert Offlines(0) == [];
    OnlyQueued(b, r, resolution);
  }

  lemma OnlyQueued(b: Backend, r: W.Request, resolution: W.Resolution)
    requires |b.candidates| == |b.containers| && W.Resolves(r, b.candidates, resolution)
    requires !(Ready(b) && resolution.outcome == W.Accepted)
    ensures RequestWindow(b, r, resolution).0 == b.(pendingWindow := QueuedWindow(b, Window(r, resolution)))
  {
    hide W.NothingMatches, W.AnySelected, W.Valid;
  }

  lemma WorkspaceDoes(b: Backend, e: Event, a: Activation)
    requires Invariant(b) && Enabled(b, e)
    requires (e.Workspace? && a == Activation(e.id, 0) && e.id in b.names) || (e.Slot? && e.slot > 0 && a == Activation("", e.slot))
    ensures Does(b, e, Dispatch(b, a))
  {
    hide TellsTruth, WorkConserved, RefreshUnderWay, W.Resolves, Drain, Written, Does;
    if !Ready(b) {
      WaitingDoes(b, e, a);
    } else {
      var command := if a.slot > 0 then FocusSlot(a.slot) else FocusName(b.names[a.id]);
      DispatchWrites(b, a);
      WrittenTries(b, command);
      if NextWrite(b) {
        WrittenDoes(b, e, command, Written(b, command));
      } else {
        UnwrittenDoes(b, e, command, Written(b, command));
      }
    }
  }

  lemma WaitingDoes(b: Backend, e: Event, a: Activation)
    requires Invariant(b) && Enabled(b, e) && !Ready(b)
    requires (e.Workspace? && a == Activation(e.id, 0) && e.id in b.names) || (e.Slot? && e.slot > 0 && a == Activation("", e.slot))
    ensures Does(b, e, Dispatch(b, a))
  {
    hide TellsTruth, WorkConserved, RefreshUnderWay, W.Resolves, Drain;
    assert Offlines(0) == [];
  }

  lemma WrittenDoes(b: Backend, e: Event, command: Command, c: Backend)
    requires |b.candidates| == |b.containers| && Enabled(b, e) && (e.Workspace? || e.Slot?)
    requires Ready(b) && NextWrite(b) && Tried(b, e) == Some(command) && OnlyTries(b, Some(command), c)
    requires c.pendingWindow == b.pendingWindow && c.pendingActivation == b.pendingActivation
    requires c.dirty == b.dirty && c.refreshTimer == b.refreshTimer
    ensures Does(b, e, c)
  {
    hide W.Resolves;
    assert Offlines(0) == [];
  }

  /** A workspace could not be written: the machine is idle again and the queue comes next. */
  ghost predicate Unwritten(b: Backend, e: Event, command: Command, c: Backend)
    requires |b.candidates| == |b.containers| && Enabled(b, e)
  {
    && (e.Workspace? || e.Slot?) && Ready(b) && !NextWrite(b) && Tried(b, e) == Some(command) && OnlyTries(b, Some(command), c)
    && c.pendingWindow == b.pendingWindow && c.pendingActivation == b.pendingActivation && c.dirty && c.refreshTimer == b.refreshTimer
  }

  lemma UnwrittenDoes(b: Backend, e: Event, command: Command, c: Backend)
    requires |b.candidates| == |b.containers| && Enabled(b, e) && Unwritten(b, e, command, c)
    ensures Does(b, e, Drain(c))
  {
    hide W.Resolves, Drain, Enabled, Shown, Remembers, Proceeds, BroughtUp;
    DrainTries(c);
    UnwrittenShows(b, e, command, c, Drain(c));
    UnwrittenRemembers(b, e, command, c, Drain(c));
    UnwrittenProceeds(b, e, command, c, Drain(c));
  }

  lemma TriesTheQueue(b: Backend, e: Event, command: Command, c: Backend)
    requires |b.candidates| == |b.containers| && Enabled(b, e) && Unwritten(b, e, command, c)
    ensures TriedNext(b, e) == FirstQueued(c.pendingWindow, c.pendingActivation, c.names)
    ensures !Ends(b, e) && Published(b, e) == None && !Drains(b, e) && !Notices(b, e)
  {
    hide W.Resolves, Enabled, FirstQueued;
  }

  lemma UnwrittenShows(b: Backend, e: Event, command: Command, c: Backend, d: Backend)
    requires |b.candidates| == |b.containers| && Enabled(b, e) && Unwritten(b, e, command, c) && BroughtUp(c, d)
    ensures Shown(b, e, d)
  {
    hide W.Resolves, Enabled, FirstQueued;
    TriesTheQueue(b, e, command, c);
    hide Tried, TriedNext, Ends, Published;
    assert Offlines(1) == [Offline] && Offlines(2) == [Offline, Offline];
  }

  lemma UnwrittenRemembers(b: Backend, e: Event, command: Command, c: Backend, d: Backend)
    requires |b.candidates| == |b.containers| && Enabled(b, e) && Unwritten(b, e, command, c) && BroughtUp(c, d)
    ensures Remembers(b, e, d)
  {
    hide W.Resolves, Enabled, FirstQueued;
    TriesTheQueue(b, e, command, c);
    hide Tried, TriedNext, Ends, Published;
  }

  lemma UnwrittenProceeds(b: Backend, e: Event, command: Command, c: Backend, d: Backend)
    requires |b.candidates| == |b.containers| && Enabled(b, e) && Unwritten(b, e, command, c) && BroughtUp(c, d)
    ensures Proceeds(b, e, d)
  {
    hide W.Resolves, Enabled, FirstQueued;
    TriesTheQueue(b, e, command, c);
    hide Tried, TriedNext, Ends, Published;
  }

  lemma StepDoes(b: Backend, e: Event)
    requires Invariant(b) && Enabled(b, e)
    ensures Does(b, e, Step(b, e))
  {
    hide Does, Invariant, W.Resolves, Receivable;
    match e {
      case RefreshTimeout => RefreshDoes(b);
      case Answered(content) =>
        Outstanding(b);
        if b.phase in {Workspaces, Outputs} {
          QueryReplyDoes(b, content);
        } else if b.phase == Tree {
          TreeReplyDoes(b, content);
        } else {
          ActivationReplyDoes(b, content);
        }
      case Subscribed(kind, accepted) => SubscribedDoes(b, kind, accepted);
      case Workspace(id) => if id in b.names { WorkspaceDoes(b, e, Activation(id, 0)); } else { IgnoredDoes(b, e); }
      case Slot(slot) => if slot > 0 { WorkspaceDoes(b, e, Activation("", slot)); } else { IgnoredDoes(b, e); }
      case Window(r, resolution) => WindowDoes(b, r, resolution);
      case RequestLost => EndingDoes(b, e);
      case SubscriptionLost => EndingDoes(b, e);
      case UnexpectedFrame(_) => EndingDoes(b, e);
      case MalformedData => EndingDoes(b, e);
      case MalformedEvents => EndingDoes(b, e);
      case RequestConnected => ConnectedDoes(b);
      case _ => ConnectingDoes(b, e);
    }
    hide Drain, Dispatch, Disconnect, BeginRefresh, Reply, RequestWindow, SubscriptionFrame, Fail;
  }

  lemma Outstanding(b: Backend)
    requires Invariant(b) && b.history.wire != []
    ensures b.phase != Idle
  {}

  lemma IgnoredDoes(b: Backend, e: Event)
    requires Invariant(b) && ((e.Workspace? && e.id !in b.names) || (e.Slot? && e.slot <= 0))
    ensures Does(b, e, b)
  {
    hide TellsTruth, WorkConserved, RefreshUnderWay, W.Resolves;
    assert Offlines(0) == [];
  }

  /**
   In every run, whichever writes fail, each event tries exactly the commands of the tables, publishes exactly their
   snapshots and one more for each failed write, ends the session exactly when they say so, and leaves known what the
   snapshots say.
   */
  lemma EveryEventDoesItsPart(writes: seq<bool>, events: seq<Event>, e: Event)
    requires Enabled(Run(writes, events), e)
    ensures |Run(writes, events).candidates| == |Run(writes, events).containers|
    ensures Does(Run(writes, events), e, Step(Run(writes, events), e))
  {
    EveryRunKeepsInvariant(writes, events);
    StepDoes(Run(writes, events), e);
    hide Does, Step, Run;
  }

  /** At first nothing is connected, due, remembered, known or published, and the first reconnect would wait a second. */
  lemma AtFirst(writes: seq<bool>)
    ensures var b := Run(writes, []);
            && b.request == Unconnected && b.subscription == Unconnected && !b.subscriptionReady && b.phase == Idle
            && !b.refreshTimer && !b.reconnectTimer && b.reconnectDelay == 1000 && !b.dirty && b.writes == writes
            && b.pendingWindow == None && b.pendingActivation == None && b.names == map[] && b.numbered == NO_NUMBERS
            && b.candidates == [] && b.containers == [] && b.history.published == [] && b.history.wire == []
  {}
}
