/** What every run of the HyprlandBackend request machine keeps, and the one way it forgets a refresh. */
module HyprlandGuarantees {
  import opened Prelude
  import opened HyprlandSession
  import opened Numerals
  import W = WindowActivation

  // ---------------------------------------------------------------- the invariant, clause by clause

  /** The commands a phase waits for. */
  predicate Issues(p: Phase, c: Command) {
    match p
    case Idle => false
    case Monitors => c == ListMonitors
    case Workspaces => c == ListWorkspaces
    case Clients => c == ListClients
    case WorkspaceActivation => c.FocusWorkspace? || c.ToggleSpecial?
    case LuaActivation => c.LuaWorkspace? || c.LuaSpecial?
    case WindowActivation => c.FocusAddress?
    case LuaWindowActivation => c.LuaAddress?
  }

  /** Away from Idle the running command is the one the phase issued, in this session. */
  ghost predicate PhaseRuns(b: Backend) {
    && (b.running.Some? ==> b.running.value.serial < b.history.sends)
    && (b.phase != Idle ==>
          && b.running.Some?
          && b.running.value.phase == b.phase && Issues(b.phase, b.running.value.command)
          && b.running.value.session == b.history.session
          && b.running.value.serial + 1 == b.history.sends)
  }

  ghost predicate WellFormed(b: Backend) {
    && |b.candidates| == |b.addresses|
    && (b.pendingActivation == "" || Dispatchable(b.pendingActivation))
    && b.activationIsSpecial == IsSpecial(b.activationId)
  }

  ghost predicate ReplyOf(reply: Option<Issued>, c: Command, age: nat, h: History) {
    && reply.Some? && reply.value.command == c && reply.value.session == h.session
    && reply.value.serial + age == h.sends
  }

  /** The replies kept so far belong to the refresh under way. */
  ghost predicate RefreshUnderWay(b: Backend) {
    && (b.phase == Workspaces ==> ReplyOf(b.monitors, ListMonitors, 2, b.history))
    && (b.phase == Clients ==> ReplyOf(b.monitors, ListMonitors, 3, b.history) && ReplyOf(b.workspaces, ListWorkspaces, 2, b.history))
  }

  /** Consecutive commands of one session: nothing else was run in between. */
  ghost predicate OneRefresh(monitors: Issued, workspaces: Issued, clients: Issued) {
    && monitors.command == ListMonitors && workspaces.command == ListWorkspaces && clients.command == ListClients
    && workspaces.serial == monitors.serial + 1 && clients.serial == workspaces.serial + 1
    && monitors.session == workspaces.session == clients.session
  }

  ghost predicate OnlineIn(published: seq<Snapshot>, session: nat) {
    exists k :: 0 <= k < |published| && published[k].Online? && published[k].clients.session == session
  }

  /** There is something to activate by name: a workspace, a special workspace or a window. */
  predicate Informed(b: Backend) {
    b.assignments != map[] || b.specials != [] || b.candidates != []
  }

  /** Snapshots are whole, and what can be activated by name was learnt in the present session. */
  ghost predicate Truthful(published: seq<Snapshot>, session: nat, informed: bool) {
    && (forall k :: 0 <= k < |published| && published[k].Online? ==>
          OneRefresh(published[k].monitors, published[k].workspaces, published[k].clients))
    && (informed ==> OnlineIn(published, session))
  }

  ghost predicate TellsTruth(b: Backend) {
    Truthful(b.history.published, b.history.session, Informed(b))
  }

  ghost predicate Invariant(b: Backend) {
    PhaseRuns(b) && WellFormed(b) && RefreshUnderWay(b) && TellsTruth(b)
  }

  // ---------------------------------------------------------------- every operation keeps it

  lemma OneMorePublished(published: seq<Snapshot>, s: Snapshot, session: nat, informed: bool)
    requires Truthful(published, session, informed)
    requires s.Online? ==> OneRefresh(s.monitors, s.workspaces, s.clients)
    ensures Truthful(published + [s], session, informed)
    ensures s.Online? && s.clients.session == session ==> Truthful(published + [s], session, true)
    ensures forall later :: Truthful(published + [s], later, false)
  {
    var longer := published + [s];
    if OnlineIn(published, session) {
      var k :| 0 <= k < |published| && published[k].Online? && published[k].clients.session == session;
      assert longer[k] == published[k];
    }
    assert longer[|published|] == s;
  }

  lemma WeakerTruth(published: seq<Snapshot>, session: nat)
    ensures Truthful(published, session, true) ==> Truthful(published, session, false)
  {}

  /** In order apart from the phase, which is Idle or about to be replaced. */
  ghost predicate Between(b: Backend) {
    b.running == None && WellFormed(b) && TellsTruth(b)
  }

  lemma OfflineKeepsTruth(b: Backend)
    requires TellsTruth(b)
    ensures TellsTruth(EmitOffline(b)) && TellsTruth(Fail(b))
  {
    OneMorePublished(b.history.published, Offline, b.history.session, Informed(b));
    WeakerTruth(b.history.published + [Offline], b.history.session);
    hide Truthful;
  }

  lemma QueryKeeps(b: Backend, next: Phase, c: Command)
    requires Between(b) && Issues(next, c)
    requires next == Workspaces ==> ReplyOf(b.monitors, ListMonitors, 1, b.history)
    requires next == Clients ==> ReplyOf(b.monitors, ListMonitors, 2, b.history) && ReplyOf(b.workspaces, ListWorkspaces, 1, b.history)
    ensures Invariant(Query(b, next, c))
  {
    hide Truthful, Dispatchable, IsSpecial;
    if NextAccepted(b) {
      AcceptedQueryKeeps(b, next, c);
    } else {
      hide EmitOffline;
      OfflineKeepsTruth(Issue(b.(phase := next), c));
      assert Query(b, next, c) == Fail(Issue(b.(phase := next), c));
      RefusedKeeps(Issue(b.(phase := next), c));
    }
  }

  lemma AcceptedQueryKeeps(b: Backend, next: Phase, c: Command)
    requires Between(b) && Issues(next, c) && NextAccepted(b)
    requires next == Workspaces ==> ReplyOf(b.monitors, ListMonitors, 1, b.history)
    requires next == Clients ==> ReplyOf(b.monitors, ListMonitors, 2, b.history) && ReplyOf(b.workspaces, ListWorkspaces, 1, b.history)
    ensures Invariant(Query(b, next, c))
  {
    hide Truthful, Dispatchable, IsSpecial, Fail;
  }

  lemma RefusedKeeps(b: Backend)
    requires Between(b)
    ensures Invariant(Fail(b)) && Invariant(EmitOffline(b.(phase := Idle)))
  {
    OfflineKeepsTruth(b);
    hide Truthful, Dispatchable, IsSpecial;
  }

  lemma DispatchKeeps(b: Backend, id: string)
    requires Invariant(b)
    ensures Invariant(DispatchWorkspace(b, id))
  {
    hide Truthful, Dispatchable;
    if Dispatchable(id) && Free(b) {
      BeginActivationKeeps(b, id);
    }
  }

  lemma BeginActivationKeeps(b: Backend, id: string)
    requires Invariant(b) && Dispatchable(id) && Free(b)
    ensures Invariant(DispatchWorkspace(b, id))
  {
    var command := if IsSpecial(id) then ToggleSpecial(id[|SPECIAL_PREFIX|..]) else FocusWorkspace(id);
    var b' := Issue(b.(activationId := id, activationIsSpecial := IsSpecial(id), phase := WorkspaceActivation), command);
    hide Truthful, ReadsAsInt, IsSpecial, EmitOffline;
    if !NextAccepted(b) {
      assert DispatchWorkspace(b, id) == Fail(b');
      RefusedKeeps(b');
    }
  }

  lemma DirtyKeeps(b: Backend)
    requires Invariant(b)
    ensures Invariant(ScheduleRefresh(b.(dirty := true)))
  {
    hide Truthful, Dispatchable, IsSpecial;
  }

  lemma DrainWindowKeeps(b: Backend)
    requires Invariant(b) && Free(b) && b.pendingWindow.Some?
    ensures Invariant(Drain(b))
  {
    hide Truthful, Dispatchable, DispatchWorkspace, IsSpecial, EmitOffline, Fail;
    var b' := BeginWindow(b.(pendingWindow := None), b.pendingWindow.value);
    if !NextAccepted(b) {
      RefusedKeeps(b');
      DirtyKeeps(EmitOffline(b'));
      assert b' == b'.(phase := Idle);
    }
  }

  lemma DrainKeeps(b: Backend)
    requires Invariant(b)
    ensures Invariant(Drain(b))
  {
    hide Truthful, Dispatchable, DispatchWorkspace, IsSpecial;
    if Free(b) {
      if b.pendingWindow.Some? {
        DrainWindowKeeps(b);
      } else if b.pendingActivation != "" {
        DispatchKeeps(b.(pendingActivation := ""), b.pendingActivation);
      }
    }
  }

  lemma SettleKeeps(b: Backend)
    requires Between(b)
    ensures Invariant(Settle(b)) && Invariant(Settle(EmitOffline(b.(phase := Idle))))
  {
    OfflineKeepsTruth(b.(phase := Idle));
    hide Truthful, Drain;
    DrainKeeps(b.(phase := Idle, dirty := true));
    DrainKeeps(EmitOffline(b.(phase := Idle)).(phase := Idle, dirty := true));
  }

  lemma FailedKeeps(b: Backend)
    requires Between(b)
    ensures Invariant(CommandFailed(b))
  {
    OfflineKeepsTruth(b.(phase := Idle));
    hide Truthful, Drain;
    var b' := EmitOffline(b.(phase := Idle));
    DrainKeeps(if Activating(b.phase) then b'.(dirty := true) else b');
  }

  lemma PublishKeeps(b: Backend, clients: Issued, parsed: Option<Parsed>)
    requires Between(b) && b.phase == Idle
    requires ReplyOf(b.monitors, ListMonitors, 3, b.history) && ReplyOf(b.workspaces, ListWorkspaces, 2, b.history)
    requires ReplyOf(Some(clients), ListClients, 1, b.history)
    ensures Invariant(Drain(Publish(b, clients, parsed)))
  {
    if parsed.Some? {
      OneMorePublished(b.history.published, Online(b.monitors.value, b.workspaces.value, clients), b.history.session, Informed(b));
      WeakerTruth(b.history.published + [Online(b.monitors.value, b.workspaces.value, clients)], b.history.session);
    } else {
      OfflineKeepsTruth(b);
    }
    hide Truthful, Drain;
    DrainKeeps(Publish(b, clients, parsed));
  }

  lemma FinishedKeeps(b: Backend, success: bool, content: Content)
    requires Invariant(b) && b.running.Some?
    ensures Invariant(Finished(b, success, content))
  {
    hide Truthful, Drain, Query, Publish, Settle, CommandFailed, EmitOffline, Dispatchable;
    var reply := b.running.value;
    var b' := b.(running := None);
    if !success {
      FailedKeeps(b');
    } else {
      match b.phase {
        case Idle =>
        case Monitors => QueryKeeps(b'.(monitors := Some(reply)), Workspaces, ListWorkspaces);
        case Workspaces => QueryKeeps(b'.(workspaces := Some(reply)), Clients, ListClients);
        case Clients => PublishKeeps(b'.(phase := Idle), reply, content.parsed);
        case WorkspaceActivation =>
          SettleKeeps(b');
          QueryKeeps(b', LuaActivation,
                     if b.activationIsSpecial then LuaSpecial(b.activationId[|SPECIAL_PREFIX|..]) else LuaWorkspace(b.activationId));
        case WindowActivation =>
          SettleKeeps(b');
          QueryKeeps(b', LuaWindowActivation, LuaAddress(b.windowAddress));
        case _ =>
          SettleKeeps(b');
      }
    }
  }

  lemma RefreshKeeps(b: Backend)
    requires Invariant(b)
    ensures Invariant(BeginRefresh(b)) && Invariant(ScheduleRefresh(b))
  {
    hide Truthful, Query;
    if Free(b) {
      QueryKeeps(b.(dirty := false), Monitors, ListMonitors);
    }
  }

  lemma LostKeeps(b: Backend)
    requires Invariant(b)
    ensures Invariant(StreamLost(b))
  {
    OneMorePublished(b.history.published, Offline, b.history.session, Informed(b));
    hide Truthful;
  }

  lemma WindowKeeps(b: Backend, r: W.Request, resolution: W.Resolution)
    requires Invariant(b) && W.Resolves(r, b.candidates, resolution)
    ensures Invariant(RequestWindow(b, r, resolution).0)
  {
    hide Truthful, Dispatchable;
    if resolution.outcome == W.Accepted && Free(b) && !NextAccepted(b) {
      RefusedKeeps(BeginWindow(b, b.addresses[resolution.index.value]));
    }
  }

  lemma StepKeeps(b: Backend, e: Event)
    requires Invariant(b)
    ensures Invariant(Step(b, e))
  {
    hide Truthful, Finished, DispatchWorkspace, BeginRefresh, StreamLost, RequestWindow, Dispatchable;
    if Enabled(b, e) {
      match e {
        case StreamConnects => RefreshKeeps(b);
        case StreamBreaks => LostKeeps(b);
        case Line(urgent) => RefreshKeeps(if urgent.Some? then b.(urgent := b.urgent + {urgent.value}) else b);
        case RefreshDue => RefreshKeeps(b.(scheduled := false));
        case CommandFinishes(success, content) => FinishedKeeps(b, success, content);
        case Workspace(id) => DispatchKeeps(b, id);
        case Slot(slot) => DispatchKeeps(b, Decimal(slot));
        case Special(id) => DispatchKeeps(b, id);
        case Window(r, resolution) => WindowKeeps(b, r, resolution);
      }
    }
  }

  lemma {:induction false} EveryRunKeepsInvariant(accepts: seq<bool>, events: seq<Event>)
    ensures Invariant(Run(accepts, events))
  {
    if events != [] {
      EveryRunKeepsInvariant(accepts, events[..|events| - 1]);
      StepKeeps(Run(accepts, events[..|events| - 1]), events[|events| - 1]);
    }
  }

  // ---------------------------------------------------------------- what runs guarantee

  /** Away from Idle the one running command was issued in the present phase of the present session. */
  lemma PhaseOwnsItsCommand(accepts: seq<bool>, events: seq<Event>)
    ensures var b := Run(accepts, events);
            b.phase != Idle ==>
              && b.running.Some? && b.running.value.phase == b.phase
              && Issues(b.phase, b.running.value.command)
              && b.running.value.session == b.history.session
  {
    EveryRunKeepsInvariant(accepts, events);
  }

  /** Every online snapshot was built from the replies of one uninterrupted refresh. */
  lemma SnapshotsComeFromOneRefresh(accepts: seq<bool>, events: seq<Event>, k: nat)
    requires k < |Run(accepts, events).history.published| && Run(accepts, events).history.published[k].Online?
    ensures var s := Run(accepts, events).history.published[k]; OneRefresh(s.monitors, s.workspaces, s.clients)
  {
    EveryRunKeepsInvariant(accepts, events);
  }

  /** What can be activated by name was learnt since the event stream last broke. */
  lemma NothingFromEarlierSessions(accepts: seq<bool>, events: seq<Event>)
    ensures var b := Run(accepts, events);
            b.assignments != map[] || b.specials != [] || b.candidates != [] ==>
              exists k :: 0 <= k < |b.history.published| && b.history.published[k].Online?
                          && b.history.published[k].clients.session == b.history.session
  {
    EveryRunKeepsInvariant(accepts, events);
  }

  predicate Querying(p: Phase) {
    p in {Monitors, Workspaces, Clients}
  }

  /**
   A reply left over from before a disconnect never advances a later refresh: no refresh is under way while it is
   outstanding, a successful one changes nothing but freeing the transport, and a failed one stores nothing, publishes
   nothing online and leaves no refresh under way either.
   */
  lemma LeftoverNeverAdvances(accepts: seq<bool>, events: seq<Event>, success: bool, content: Content)
    requires var b := Run(accepts, events); b.running.Some? && b.running.value.session != b.history.session
    ensures var b := Run(accepts, events);
            var b' := Finished(b, success, content);
            && b.phase == Idle
            && (success ==> b' == b.(running := None))
            && (!success ==>
                  && !Querying(b'.phase) && b'.monitors == b.monitors && b'.workspaces == b.workspaces
                  && |b'.history.published| > |b.history.published| && b.history.published <= b'.history.published
                  && forall k :: |b.history.published| <= k < |b'.history.published| ==> b'.history.published[k] == Offline)
  {
    EveryRunKeepsInvariant(accepts, events);
    var b := Run(accepts, events);
    if !success {
      DrainOnlyActivates(EmitOffline(b.(running := None, phase := Idle)));
    }
  }

  lemma DrainOnlyActivates(b: Backend)
    requires b.phase == Idle
    ensures var b' := Drain(b);
            && !Querying(b'.phase) && b'.monitors == b.monitors && b'.workspaces == b.workspaces
            && b.history.published <= b'.history.published
            && forall k :: |b.history.published| <= k < |b'.history.published| ==> b'.history.published[k] == Offline
  {
    hide Dispatchable, IsSpecial, DispatchWorkspace, BeginWindow;
    if b.running == None {
      if b.pendingWindow.Some? {
        BeginWindowOnlyActivates(b.(pendingWindow := None), b.pendingWindow.value);
      } else if b.pendingActivation != "" {
        DispatchOnlyActivates(b.(pendingActivation := ""), b.pendingActivation);
      }
    }
  }

  lemma BeginWindowOnlyActivates(b: Backend, address: string)
    requires b.phase == Idle && b.running == None
    ensures var b' := BeginWindow(b, address);
            && !Querying(b'.phase) && b'.monitors == b.monitors && b'.workspaces == b.workspaces
            && b'.history.published == b.history.published
            && (NextAccepted(b) <==> b'.phase != Idle)
  {}

  lemma DispatchOnlyActivates(b: Backend, id: string)
    requires b.phase == Idle && b.running == None
    ensures var b' := DispatchWorkspace(b, id);
            && !Querying(b'.phase) && b'.monitors == b.monitors && b'.workspaces == b.workspaces
            && (b'.history.published == b.history.published || b'.history.published == b.history.published + [Offline])
  {
    hide Dispatchable, IsSpecial;
  }

  /** Accepted means that focusing exactly the resolved window is running or queued; Busy that the queue was taken. */
  lemma AcceptedWindowIsUnderWay(b: Backend, r: W.Request, resolution: W.Resolution)
    requires Invariant(b) && W.Resolves(r, b.candidates, resolution)
    ensures var (b', outcome) := RequestWindow(b, r, resolution);
            && (outcome == W.Accepted ==>
                  && resolution.outcome == W.Accepted
                  && var address := b.addresses[resolution.index.value];
                     || (!Free(b) && b.pendingWindow == None && b' == b.(pendingWindow := Some(address)))
                     || (Free(b) && b'.running.Some? && b'.running.value.command == FocusAddress(address)))
            && (outcome == W.Busy <==> resolution.outcome == W.Accepted && !Free(b) && b.pendingWindow.Some?)
            && (outcome != W.Accepted ==> b'.running == b.running && b'.pendingWindow == b.pendingWindow)
  {}

  /** Focuses the workspace with the identifier: by number, or by the name behind "special:". */
  predicate Focuses(c: Command, id: string) {
    || (c == FocusWorkspace(id) && !("special:" <= id))
    || (c.ToggleSpecial? && "special:" + c.name == id)
  }

  /** The queued window was attempted; a refusal leaves a refresh scheduled. */
  predicate WindowAttempted(b: Backend, c: Backend, address: string) {
    && c.pendingWindow == None && c.pendingActivation == b.pendingActivation
    && (if NextAccepted(b) then
          c.phase == WindowActivation && c.dirty == b.dirty && c.running.Some? && c.running.value.command == FocusAddress(address)
        else Free(c) && c.dirty && c.scheduled)
  }

  /** The queued workspace was attempted; a refusal leaves only what was remembered before. */
  predicate WorkspaceAttempted(b: Backend, c: Backend, id: string) {
    && c.pendingWindow == b.pendingWindow && c.pendingActivation == "" && c.dirty == b.dirty && c.scheduled == b.scheduled
    && (if NextAccepted(b) then
          c.phase == WorkspaceActivation && c.activationId == id && c.running.Some?
          && Focuses(c.running.value.command, id)
        else Free(c))
  }

  /**
   When the machine becomes free, exactly one thing is attempted, whatever the transport does with it: the queued window,
   else the queued workspace, else a remembered refresh. What was not attempted stays queued.
   */
  lemma OneThingIsStarted(b: Backend)
    requires Free(b) && WellFormed(b)
    ensures var c := Drain(b);
            if b.pendingWindow.Some? then WindowAttempted(b, c, b.pendingWindow.value)
            else if b.pendingActivation != "" then WorkspaceAttempted(b, c, b.pendingActivation)
            else Free(c) && (c.scheduled <==> b.scheduled || b.dirty)
  {
    hide Dispatchable, IsSpecial, WindowAttempted, WorkspaceAttempted, DispatchWorkspace, BeginWindow;
    if b.pendingWindow.Some? {
      WindowIsAttempted(b);
    } else if b.pendingActivation != "" {
      WorkspaceIsAttempted(b, b.pendingActivation);
    }
  }

  lemma WindowIsAttempted(b: Backend)
    requires Free(b) && b.pendingWindow.Some?
    ensures WindowAttempted(b, Drain(b), b.pendingWindow.value)
  {
    hide DispatchWorkspace;
  }

  lemma WorkspaceIsAttempted(b: Backend, id: string)
    requires Free(b) && Dispatchable(id)
    ensures WorkspaceAttempted(b, DispatchWorkspace(b.(pendingActivation := ""), id), id)
  {
    hide Dispatchable;
    if IsSpecial(id) {
      assert id == "special:" + id[|SPECIAL_PREFIX|..];
    }
  }

  // ---------------------------------------------------------------- how a refresh is forgotten

  predicate Remembers(b: Backend) {
    b.dirty || b.pendingWindow.Some? || b.pendingActivation != ""
  }

  /** Work is remembered but nothing is running or scheduled that would bring it up. */
  predicate Stuck(b: Backend) {
    Free(b) && !b.scheduled && Remembers(b)
  }

  /** The transport would refuse the next command although it is idle. */
  predicate Refused(b: Backend) {
    b.accepts != [] && !b.accepts[0]
  }

  /** A successful reply is followed by another command of the same refresh or activation. */
  predicate FollowUpDue(b: Backend, content: Content) {
    || b.phase in {Monitors, Workspaces}
    || (b.phase in {WorkspaceActivation, WindowActivation} && content.isError)
  }

  /**
   The completion of a command sticks work in one of three ways: a successful reply in the Idle phase drains nothing; a
   refused follow-up gives up without draining; a refused workspace, drained from the queue, leaves a refresh behind.
   */
  predicate CompletionSticks(b: Backend, success: bool, content: Content) {
    && !b.scheduled
    && (|| (success && b.phase == Idle && Remembers(b))
        || (success && FollowUpDue(b, content) && Refused(b) && Remembers(b))
        || (!(success && (b.phase == Idle || FollowUpDue(b, content)))
            && Refused(b) && b.pendingWindow == None && b.pendingActivation != "" && (b.dirty || Activating(b.phase))))
  }

  /** The event sticks work: a refused refresh with something queued, or a completion as above. */
  predicate Sticks(b: Backend, e: Event) {
    match e
    case RefreshDue => b.scheduled && Free(b) && Refused(b) && (b.pendingWindow.Some? || b.pendingActivation != "")
    case CommandFinishes(success, content) => b.running.Some? && CompletionSticks(b, success, content)
    case _ => false
  }

  /** Whatever the transport takes or refuses, work that is not stuck gets stuck in exactly these ways. */
  lemma StuckExactly(b: Backend, e: Event)
    requires Invariant(b) && !Stuck(b)
    ensures Stuck(Step(b, e)) <==> Sticks(b, e)
  {
    hide Dispatchable, IsSpecial, TellsTruth, RefreshUnderWay, CompletionSticks;
    if Enabled(b, e) {
      match e {
        case RefreshDue => BeginRefreshSticks(b);
        case CommandFinishes(success, content) => FinishedSticks(b, success, content);
        case Workspace(id) => DispatchUnsticks(b, id);
        case Slot(slot) => DispatchUnsticks(b, Decimal(slot));
        case Special(id) => DispatchUnsticks(b, id);
        case Window(r, resolution) => WindowUnsticks(b, r, resolution);
        case _ => hide Finished, DispatchWorkspace, RequestWindow, BeginRefresh;
      }
    }
  }

  lemma BeginRefreshSticks(b: Backend)
    requires Invariant(b) && b.scheduled
    ensures Stuck(BeginRefresh(b.(scheduled := false))) <==> Sticks(b, RefreshDue)
  {
    hide Dispatchable, IsSpecial, TellsTruth, RefreshUnderWay;
  }

  lemma DispatchUnsticks(b: Backend, id: string)
    requires !Stuck(b)
    ensures !Stuck(DispatchWorkspace(b, id))
  {
    hide Dispatchable, IsSpecial;
  }

  lemma WindowUnsticks(b: Backend, r: W.Request, resolution: W.Resolution)
    requires WellFormed(b) && !Stuck(b) && W.Resolves(r, b.candidates, resolution)
    ensures !Stuck(RequestWindow(b, r, resolution).0)
  {
    hide Dispatchable, IsSpecial;
  }

  lemma DrainSticks(b: Backend)
    requires Free(b) && (b.pendingActivation == "" || Dispatchable(b.pendingActivation))
    ensures Stuck(Drain(b)) <==> !b.scheduled && Refused(b) && b.pendingWindow == None && b.pendingActivation != "" && b.dirty
  {
    hide Dispatchable, IsSpecial;
  }

  lemma QuerySticks(b: Backend, next: Phase, c: Command)
    requires b.running == None && next != Idle
    ensures Stuck(Query(b, next, c)) <==> !b.scheduled && Refused(b) && Remembers(b)
  {}

  lemma FinishedSticks(b: Backend, success: bool, content: Content)
    requires Invariant(b) && b.running.Some?
    ensures Stuck(Finished(b, success, content)) <==> CompletionSticks(b, success, content)
  {
    hide Dispatchable, IsSpecial, Drain, Query, TellsTruth;
    var reply := b.running.value;
    var b' := b.(running := None);
    var idle := b'.(phase := Idle);
    var offline := EmitOffline(idle);
    if !success {
      DrainSticks(if Activating(b.phase) then offline.(dirty := true) else offline);
    } else {
      match b.phase {
        case Idle =>
        case Monitors => QuerySticks(b'.(monitors := Some(reply)), Workspaces, ListWorkspaces);
        case Workspaces => QuerySticks(b'.(workspaces := Some(reply)), Clients, ListClients);
        case Clients => DrainSticks(Publish(idle, reply, content.parsed));
        case _ => ActivationSticks(b, content);
      }
    }
  }

  lemma ActivationSticks(b: Backend, content: Content)
    requires Invariant(b) && b.running.Some? && Activating(b.phase)
    ensures Stuck(Finished(b, true, content)) <==> CompletionSticks(b, true, content)
  {
    hide Dispatchable, Drain, Query, TellsTruth;
    var b' := b.(running := None);
    var idle := b'.(phase := Idle);
    QuerySticks(b', LuaActivation,
                if b.activationIsSpecial then LuaSpecial(b.activationId[|SPECIAL_PREFIX|..]) else LuaWorkspace(b.activationId));
    QuerySticks(b', LuaWindowActivation, LuaAddress(b.windowAddress));
    DrainSticks(idle.(dirty := true));
    DrainSticks(EmitOffline(idle).(phase := Idle, dirty := true));
  }

  ghost predicate NeverStuck(accepts: seq<bool>, events: seq<Event>) {
    forall k :: 0 <= k <= |events| ==> !Stuck(Run(accepts, events[..k]))
  }

  ghost predicate NothingSticks(accepts: seq<bool>, events: seq<Event>) {
    forall k :: 0 <= k < |events| ==> !Sticks(Run(accepts, events[..k]), events[k])
  }

  /** Over whole runs, for every transport: work is never stuck exactly if no event sticks it. */
  lemma {:induction false} NeverStuckExactly(accepts: seq<bool>, events: seq<Event>)
    ensures NeverStuck(accepts, events) <==> NothingSticks(accepts, events)
  {
    hide Stuck, Sticks, Step, Run, Invariant;
    if events == [] {
      InitiallyUnstuck(accepts);
    } else {
      var n := |events| - 1;
      var before := events[..n];
      RunsOn(accepts, events);
      assert forall k :: 0 <= k <= n ==> before[..k] == events[..k];
      assert forall k :: 0 <= k < n ==> before[k] == events[k];
      assert events[..n + 1] == events;
      assert NeverStuck(accepts, events) <==> NeverStuck(accepts, before) && !Stuck(Run(accepts, events));
      assert NothingSticks(accepts, events) <==> NothingSticks(accepts, before) && !Sticks(Run(accepts, before), events[n]);
      NeverStuckExactly(accepts, before);
      EveryRunKeepsInvariant(accepts, before);
      if !Stuck(Run(accepts, before)) {
        StuckExactly(Run(accepts, before), events[n]);
      }
      assert before[..n] == before;
    }
  }

  lemma RunsOn(accepts: seq<bool>, events: seq<Event>)
    requires events != []
    ensures Run(accepts, events) == Step(Run(accepts, events[..|events| - 1]), events[|events| - 1])
  {
    hide Step;
  }

  lemma InitiallyUnstuck(accepts: seq<bool>)
    ensures !Stuck(Run(accepts, []))
  {}

  /**
   A refresh can be forgotten: a refresh is under way when the event stream breaks; the stream returns while the old
   command still runs, so the new refresh is only remembered; the old reply then arrives and nothing is scheduled.
   */
  lemma RefreshCanBeForgotten(content: Content)
    ensures Stuck(Run([], [StreamConnects, RefreshDue, StreamBreaks, StreamConnects, CommandFinishes(true, content)]))
  {
    hide Drain, Publish, DispatchWorkspace, RequestWindow, CommandFailed, RunLuaActivation, RunLuaWindowActivation, Settle;
    var events := [StreamConnects, RefreshDue, StreamBreaks, StreamConnects, CommandFinishes(true, content)];
    assert events[..4][..3] == events[..3] && events[..3][..2] == events[..2] && events[..2][..1] == events[..1] && events[..1][..0] == [];
    assert Run([], events[..1]) == Initial([]).(scheduled := true);
    assert Run([], events[..2]).phase == Monitors && Run([], events[..2]).running.Some?;
    assert Free(Run([], events[..3]).(running := None)) && Run([], events[..3]).running.Some?;
    assert Run([], events[..4]).dirty && !Run([], events[..4]).scheduled;
  }

  /** A refusal can stick work as well: an event during a refresh is remembered, and the follow-up query is refused. */
  lemma RefusalCanStick(content: Content)
    ensures Stuck(Run([true, false], [StreamConnects, RefreshDue, Line(None), CommandFinishes(true, content)]))
  {
    hide Drain, Publish, DispatchWorkspace, RequestWindow, CommandFailed, RunLuaActivation, RunLuaWindowActivation, Settle;
    var accepts := [true, false];
    var events := [StreamConnects, RefreshDue, Line(None), CommandFinishes(true, content)];
    assert events[..3][..2] == events[..2] && events[..2][..1] == events[..1] && events[..1][..0] == [];
    assert Run(accepts, events[..1]) == Initial(accepts).(scheduled := true);
    assert Run(accepts, events[..2]).phase == Monitors && Run(accepts, events[..2]).running.Some?;
    assert Run(accepts, events[..2]).accepts == [false] && !Run(accepts, events[..2]).scheduled;
    assert Run(accepts, events[..3]).dirty && Run(accepts, events[..3]).phase == Monitors;
  }
}
