/** What every run of the SwayBackend request machine keeps. */
module SwayGuarantees {
  import opened Numerals
  import opened Prelude
  import opened SwaySession
  import P = SwayRefresh
  import T = SwayTree
  import W = WindowActivation

  // ---------------------------------------------------------------- the invariant, clause by clause

  /** Away from Idle exactly one command is outstanding, and it is the one the phase issued. */
  ghost predicate OneOutstanding(b: Backend) {
    if b.phase == Idle then b.history.wire == []
    else
      && |b.history.wire| == 1
      && Issues(b.phase, b.history.wire[0].command)
      && b.history.wire[0].session == b.history.session
      && b.history.wire[0].serial + 1 == b.history.sends
  }

  /** Without a connection there is nothing under way and nothing queued. */
  ghost predicate NothingOffline(b: Backend) {
    && (b.request != Connected ==> b.phase == Idle && !b.dirty && b.pendingWindow == None && b.pendingActivation == None)
    && (b.reconnectTimer ==> b.request == Unconnected && b.subscription == Unconnected)
    && |b.candidates| == |b.containers|
    && INITIAL_DELAY <= b.reconnectDelay <= MAXIMUM_DELAY
  }

  /** Connected: what is owed has a refresh coming, and an idle machine with work queued has its timer running. */
  ghost predicate WorkConserved(b: Backend) {
    && (b.refreshTimer ==> !Refreshing(b.phase))
    && (b.request == Connected && b.history.owed ==> b.refreshTimer || b.dirty || Activating(b.phase))
    && (b.request == Connected && b.phase == Idle && (b.pendingWindow.Some? || b.pendingActivation.Some? || b.dirty)
        ==> b.refreshTimer)
  }

  /** Consecutive commands of one session: nothing else was sent in between. */
  ghost predicate OneRefresh(workspaces: Sent, outputs: Sent, tree: Sent) {
    && workspaces.command == GetWorkspaces && outputs.command == GetOutputs && tree.command == GetTree
    && outputs.serial == workspaces.serial + 1 && tree.serial == outputs.serial + 1
    && workspaces.session == outputs.session == tree.session
  }

  /** The replies kept so far belong to the refresh under way. */
  ghost predicate RefreshUnderWay(b: Backend) {
    && (b.phase in {Outputs, Tree} ==>
          && b.workspaces.Some? && b.workspaces.value.command == GetWorkspaces
          && b.workspaces.value.session == b.history.session
          && b.workspaces.value.serial + (if b.phase == Outputs then 2 else 3) == b.history.sends)
    && (b.phase == Tree ==>
          && b.outputs.Some? && b.outputs.value.command == GetOutputs
          && b.outputs.value.session == b.history.session
          && b.outputs.value.serial + 2 == b.history.sends)
  }

  ghost predicate SnapshotsWhole(published: seq<Snapshot>) {
    forall k :: 0 <= k < |published| && published[k].Online? ==>
      OneRefresh(published[k].workspaces, published[k].outputs, published[k].tree)
  }

  ghost predicate OnlineIn(published: seq<Snapshot>, session: nat) {
    exists k :: 0 <= k < |published| && published[k].Online? && published[k].tree.session == session
  }

  /** There is something to activate: names or windows. */
  predicate Informed(b: Backend) {
    b.names != map[] || b.candidates != []
  }

  /** Snapshots are whole, and what can be activated was learnt in the present session. */
  ghost predicate Truthful(published: seq<Snapshot>, session: nat, informed: bool) {
    SnapshotsWhole(published) && (informed ==> OnlineIn(published, session))
  }

  ghost predicate TellsTruth(b: Backend) {
    Truthful(b.history.published, b.history.session, Informed(b))
  }

  ghost predicate Invariant(b: Backend) {
    OneOutstanding(b) && NothingOffline(b) && WorkConserved(b) && RefreshUnderWay(b) && TellsTruth(b)
  }

  // ---------------------------------------------------------------- what the operations need and give

  lemma OneMorePublished(published: seq<Snapshot>, s: Snapshot, session: nat, informed: bool)
    requires Truthful(published, session, informed)
    requires s.Online? ==> OneRefresh(s.workspaces, s.outputs, s.tree)
    ensures Truthful(published + [s], session, informed)
    ensures s.Online? && s.tree.session == session ==> Truthful(published + [s], session, true)
    ensures forall later :: Truthful(published + [s], later, false)
  {
    var longer := published + [s];
    if OnlineIn(published, session) {
      var k :| 0 <= k < |published| && published[k].Online? && published[k].tree.session == session;
      assert longer[k] == published[k];
    }
    assert longer[|published|] == s;
  }

  /** Connected and Idle with everything in order except that queued work may lack its timer. */
  ghost predicate Settling(b: Backend) {
    && b.request == Connected && b.phase == Idle
    && OneOutstanding(b) && NothingOffline(b) && TellsTruth(b)
    && (b.history.owed ==> b.refreshTimer || b.dirty)
  }

  lemma FailSettles(b: Backend)
    requires Settling(b)
    ensures Settling(Fail(b)) && Settling(Fail(b).(dirty := true))
  {
    OneMorePublished(b.history.published, Offline, b.history.session, Informed(b));
    WeakerTruth(b.history.published + [Offline], b.history.session);
    hide Truthful;
  }

  lemma WeakerTruth(published: seq<Snapshot>, session: nat)
    ensures Truthful(published, session, true) ==> Truthful(published, session, false)
  {}

  /** All that a disconnect needs: it resets the rest. */
  ghost predicate Disconnectable(b: Backend) {
    && |b.candidates| == |b.containers| && INITIAL_DELAY <= b.reconnectDelay <= MAXIMUM_DELAY
    && TellsTruth(b)
    && !b.reconnectTimer
  }

  lemma DisconnectKeeps(b: Backend)
    requires Disconnectable(b)
    ensures Invariant(Disconnect(b)) && Disconnect(b).request == Unconnected
  {
    OneMorePublished(b.history.published, Offline, b.history.session, Informed(b));
    hide Truthful;
  }

  lemma DrainWindowKeeps(b: Backend)
    requires Settling(b) && b.pendingWindow.Some?
    ensures Invariant(Drain(b))
  {
    hide Truthful;
    if !NextWrite(b) {
      FailSettles(BeginWindow(b.(pendingWindow := None), b.pendingWindow.value));
    }
  }

  lemma {:induction false} DrainKeeps(b: Backend)
    requires Settling(b)
    ensures Invariant(Drain(b))
    decreases Queued(b), 0
  {
    hide Truthful;
    if b.pendingWindow.Some? {
      DrainWindowKeeps(b);
    } else if b.pendingActivation.Some? {
      DispatchKeeps(b.(pendingActivation := None), b.pendingActivation.value);
    }
  }

  lemma {:induction false} DispatchKeeps(b: Backend, a: Activation)
    requires Settling(b)
    ensures Invariant(Dispatch(b, a))
    decreases Queued(b), 1
  {
    hide Truthful;
    if a.slot == 0 && a.id !in b.names {
      DrainKeeps(b);
    } else if !NextWrite(b) {
      var b' := Send(b.(phase := WorkspaceActivation), ActivationCommand(b, a)).(phase := Idle);
      FailSettles(b');
      DrainKeeps(Fail(b').(dirty := true));
    }
  }

  lemma ActivationKeeps(b: Backend, a: Activation)
    requires Invariant(b)
    ensures Invariant(Dispatch(b, a))
  {
    if b.request == Connected && b.phase == Idle {
      DispatchKeeps(b, a);
    }
  }

  lemma NoticeKeeps(b: Backend)
    requires Invariant(b)
    ensures Invariant(Notice(b))
  {
    hide Truthful;
  }

  lemma ConnectedKeeps(b: Backend)
    requires Invariant(b) && b.request == Connecting
    ensures Invariant(Notice(b.(request := Connected)))
  {
    hide Truthful;
  }

  lemma BeginRefreshKeeps(b: Backend)
    requires Invariant(b) && b.refreshTimer
    ensures Invariant(BeginRefresh(b.(refreshTimer := false)))
  {
    hide Truthful;
    var b' := b.(refreshTimer := false);
    if b'.request == Connected && b'.phase == Idle && !NextWrite(b') {
      DisconnectKeeps(Send(b'.(dirty := false, workspaces := None, outputs := None, phase := Workspaces,
                               history := b'.history.(owed := false)), GetWorkspaces));
    }
  }

  lemma FinishRefreshKeeps(b: Backend, content: Content)
    requires Invariant(b) && b.phase == Tree
    ensures Invariant(Reply(b, content))
  {
    var tree := b.history.wire[0];
    var b' := b.(history := b.history.(wire := b.history.wire[1..]), phase := Idle);
    match content.parsed {
      case Some(p) =>
        OneMorePublished(b.history.published, Online(b.workspaces.value, b.outputs.value, tree), b.history.session, Informed(b));
        var b'' := Install(b', p, tree);
        WeakerTruth(b''.history.published, b.history.session);
        DrainKeeps(b'');
      case None =>
        FailSettles(b');
        DrainKeeps(Fail(b'));
    }
  }

  lemma FinishActivationKeeps(b: Backend, content: Content)
    requires Invariant(b) && Activating(b.phase)
    ensures Invariant(Reply(b, content))
  {
    hide Truthful;
    var b' := b.(history := b.history.(wire := b.history.wire[1..]), phase := Idle, dirty := true);
    assert Settling(b');
    if content.success {
      DrainKeeps(b');
    } else {
      FailSettles(b');
      DrainKeeps(Fail(b').(dirty := true));
      assert Fail(b').(dirty := true) == Fail(b'.(dirty := b.dirty)).(dirty := true);
    }
  }

  lemma ReplyKeeps(b: Backend, content: Content)
    requires Invariant(b) && b.request == Connected && b.history.wire != []
    ensures Invariant(Reply(b, content))
  {
    if b.phase == Tree {
      FinishRefreshKeeps(b, content);
    } else if Activating(b.phase) {
      FinishActivationKeeps(b, content);
    } else if b.phase == Workspaces {
      WorkspacesReplyKeeps(b, content);
    } else {
      OutputsReplyKeeps(b, content);
    }
  }

  lemma WorkspacesReplyKeeps(b: Backend, content: Content)
    requires Invariant(b) && b.phase == Workspaces && b.request == Connected
    ensures Invariant(Reply(b, content))
  {
    hide Truthful, Disconnect, FinishRefresh, FinishActivation;
    var b' := b.(history := b.history.(wire := b.history.wire[1..]), workspaces := Some(b.history.wire[0]), phase := Outputs);
    if !NextWrite(b) {
      DisconnectKeeps(Send(b', GetOutputs));
    }
  }

  lemma OutputsReplyKeeps(b: Backend, content: Content)
    requires Invariant(b) && b.phase == Outputs && b.request == Connected
    ensures Invariant(Reply(b, content))
  {
    hide Truthful, Disconnect, FinishRefresh, FinishActivation;
    var b' := b.(history := b.history.(wire := b.history.wire[1..]), outputs := Some(b.history.wire[0]), phase := Tree);
    if !NextWrite(b) {
      DisconnectKeeps(Send(b', GetTree));
    }
  }

  lemma SubscriptionKeeps(b: Backend, kind: nat, accepted: bool)
    requires Invariant(b) && b.subscription == Connected
    ensures Invariant(SubscriptionFrame(b, kind, accepted))
    ensures Invariant(Disconnect(Fail(b)))
  {
    OneMorePublished(b.history.published, Offline, b.history.session, Informed(b));
    WeakerTruth(b.history.published + [Offline], b.history.session);
    hide Truthful;
    DisconnectKeeps(Fail(b));
    NoticeKeeps(b);
  }

  lemma WindowKeeps(b: Backend, r: W.Request, resolution: W.Resolution)
    requires Invariant(b) && W.Resolves(r, b.candidates, resolution)
    ensures Invariant(RequestWindow(b, r, resolution).0)
  {
    hide Truthful;
    if resolution.outcome == W.Accepted && b.request == Connected && b.phase == Idle && !NextWrite(b) {
      FailSettles(BeginWindow(b, b.containers[resolution.index.value]));
    }
  }

  lemma StepKeeps(b: Backend, e: Event)
    requires Invariant(b)
    ensures Invariant(Step(b, e))
  {
    hide Truthful, Disconnect, Notice, BeginRefresh, Reply, SubscriptionFrame, Dispatch, RequestWindow;
    if Enabled(b, e) {
      match e {
        case RequestConnected => ConnectedKeeps(b);
        case RequestLost => DisconnectKeeps(b.(request := Unconnected));
        case SubscriptionLost => DisconnectKeeps(b.(subscription := Unconnected));
        case RefreshTimeout => BeginRefreshKeeps(b);
        case Answered(content) => ReplyKeeps(b, content);
        case UnexpectedFrame(_) => DisconnectKeeps(b);
        case MalformedData => DisconnectKeeps(b);
        case Subscribed(kind, accepted) => SubscriptionKeeps(b, kind, accepted);
        case MalformedEvents => SubscriptionKeeps(b, 0, false);
        case Workspace(id) => ActivationKeeps(b, Activation(id, 0));
        case Slot(slot) => if slot > 0 { ActivationKeeps(b, Activation("", slot)); }
        case Window(r, resolution) => WindowKeeps(b, r, resolution);
        case _ =>
      }
    }
  }

  // ---------------------------------------------------------------- whole runs

  lemma {:induction false} EveryRunKeepsInvariant(writes: seq<bool>, events: seq<Event>)
    ensures Invariant(Run(writes, events))
  {
    if events != [] {
      EveryRunKeepsInvariant(writes, events[..|events| - 1]);
      StepKeeps(Run(writes, events[..|events| - 1]), events[|events| - 1]);
    }
  }

  /**
   No event is lost. While connected, anything that happened since the latest refresh was started has a refresh coming:
   the timer runs, or the refresh is remembered, or an activation is under way that will remember it; and whenever the
   machine is idle with a window, a workspace or a refresh queued, the timer runs.
   */
  lemma WorkIsConserved(writes: seq<bool>, events: seq<Event>)
    ensures var b := Run(writes, events);
            b.request == Connected ==>
              && (b.history.owed ==> b.refreshTimer || b.dirty || Activating(b.phase))
              && (b.phase == Idle && (b.pendingWindow.Some? || b.pendingActivation.Some? || b.dirty) ==> b.refreshTimer)
  {
    EveryRunKeepsInvariant(writes, events);
  }

  /** One command at a time, issued by the phase that waits for it; so Sway's answers always have the kind awaited. */
  lemma OneCommandOutstanding(writes: seq<bool>, events: seq<Event>)
    ensures var b := Run(writes, events);
            && |b.history.wire| == (if b.phase == Idle then 0 else 1)
            && (b.phase != Idle ==>
                  && b.request == Connected
                  && Issues(b.phase, b.history.wire[0].command)
                  && KindOf(b.history.wire[0].command) == ExpectedKind(b.phase)
                  && b.history.wire[0].session == b.history.session)
  {
    EveryRunKeepsInvariant(writes, events);
  }

  /**
   Every online snapshot was built from the replies to three consecutive commands of one session, asking for the
   workspaces, the outputs and the tree: one uninterrupted refresh.
   */
  lemma SnapshotsComeFromOneRefresh(writes: seq<bool>, events: seq<Event>, k: nat)
    requires k < |Run(writes, events).history.published| && Run(writes, events).history.published[k].Online?
    ensures var s := Run(writes, events).history.published[k]; OneRefresh(s.workspaces, s.outputs, s.tree)
  {
    EveryRunKeepsInvariant(writes, events);
  }

  /** A disconnect drops the session: whatever can be activated was learnt from a snapshot of the present session. */
  lemma NothingFromEarlierSessions(writes: seq<bool>, events: seq<Event>)
    ensures var b := Run(writes, events);
            b.names != map[] || b.candidates != [] ==>
              exists k :: 0 <= k < |b.history.published| && b.history.published[k].Online?
                          && b.history.published[k].tree.session == b.history.session
  {
    EveryRunKeepsInvariant(writes, events);
  }

  // ---------------------------------------------------------------- what can be activated is in the last tree

  /** The windows remembered are those of the last tree taken over, and the two workspace tables agree. */
  ghost predicate FromLastTree(candidates: seq<W.Candidate>, containers: seq<nat>, tree: Option<T.Node>) {
    candidates != [] ==>
      && tree.Some?
      && candidates == Lefts(P.Activatable(T.Inspect(tree.value).activation))
      && containers == Rights(P.Activatable(T.Inspect(tree.value).activation))
  }

  ghost predicate Remembered(b: Backend) {
    FromLastTree(b.candidates, b.containers, b.history.tree) && P.TablesAgree(b.numbered, b.names)
  }

  /** Neither draining nor dispatching touches windows or names, except that a failure forgets the names. */
  ghost predicate OnlyForgets(b: Backend, c: Backend) {
    && c.candidates == b.candidates && c.containers == b.containers && c.history.tree == b.history.tree
    && ((c.names == b.names && c.numbered == b.numbered) || (c.names == map[] && c.numbered == NO_NUMBERS))
  }

  lemma DrainWindowOnlyForgets(b: Backend)
    requires b.phase == Idle && b.pendingWindow.Some?
    ensures OnlyForgets(b, Drain(b))
  {
    hide Dispatch;
  }

  lemma {:induction false} DrainOnlyForgets(b: Backend)
    ensures OnlyForgets(b, Drain(b))
    decreases Queued(b), 0
  {
    if b.phase != Idle {
    } else if b.pendingWindow.Some? {
      DrainWindowOnlyForgets(b);
    } else if b.pendingActivation.Some? {
      DispatchOnlyForgets(b.(pendingActivation := None), b.pendingActivation.value);
    }
  }

  lemma {:induction false} DispatchOnlyForgets(b: Backend, a: Activation)
    ensures OnlyForgets(b, Dispatch(b, a))
    decreases Queued(b), 1
  {
    if b.request == Connected && b.phase == Idle {
      if a.slot == 0 && a.id !in b.names {
        DrainOnlyForgets(b);
      } else if !NextWrite(b) {
        DrainOnlyForgets(Fail(Send(b.(phase := WorkspaceActivation), ActivationCommand(b, a)).(phase := Idle)).(dirty := true));
      }
    }
  }

  lemma ForgettingRemembers(b: Backend, c: Backend)
    requires Remembered(b) && OnlyForgets(b, c)
    ensures Remembered(c)
  {}

  lemma DisconnectRemembers(b: Backend)
    requires Remembered(b)
    ensures Remembered(Disconnect(b))
  {
    hide FromLastTree, P.TablesAgree;
    NothingRemembered(b.history.tree);
  }

  lemma NothingRemembered(tree: Option<T.Node>)
    ensures FromLastTree([], [], tree) && P.TablesAgree(NO_NUMBERS, map[])
  {}

  lemma ReplyRemembers(b: Backend, content: Content)
    requires Remembered(b) && b.history.wire != [] && Receivable(content)
    ensures Remembered(Reply(b, content))
  {
    hide Remembered, Receivable;
    if b.phase in {Workspaces, Outputs} {
      QueryRemembers(b, content);
    } else if Activating(b.phase) {
      ActivationRemembers(b, content);
    } else {
      Unwired(b);
      if b.phase == Tree {
        RefreshRemembers(b.(history := b.history.(wire := b.history.wire[1..]), phase := Idle), b.history.wire[0], content);
      }
      hide Drain, Install, Fail, FinishActivation;
    }
  }

  lemma Unwired(b: Backend)
    requires Remembered(b) && b.history.wire != []
    ensures var b' := b.(history := b.history.(wire := b.history.wire[1..]));
            Remembered(b') && Remembered(b'.(phase := Idle))
  {
    hide FromLastTree, P.TablesAgree;
  }

  lemma QueryRemembers(b: Backend, content: Content)
    requires Remembered(b) && b.history.wire != [] && b.phase in {Workspaces, Outputs}
    ensures Remembered(Reply(b, content))
  {
    hide FromLastTree, P.TablesAgree, Disconnect, FinishRefresh, FinishActivation;
    var reply, b' := b.history.wire[0], b.(history := b.history.(wire := b.history.wire[1..]));
    DisconnectRemembers(if b.phase == Workspaces then Send(b'.(workspaces := Some(reply), phase := Outputs), GetOutputs)
                        else Send(b'.(outputs := Some(reply), phase := Tree), GetTree));
  }

  lemma ActivationRemembers(b: Backend, content: Content)
    requires Remembered(b) && b.history.wire != [] && Activating(b.phase)
    ensures Remembered(Reply(b, content))
  {
    hide FromLastTree, P.TablesAgree, Drain, Disconnect;
    var b' := b.(history := b.history.(wire := b.history.wire[1..]), phase := Idle);
    var after := (if content.success then b' else Fail(b')).(dirty := true);
    NothingRemembered(b.history.tree);
    DrainOnlyForgets(after);
    ForgettingRemembers(after, Drain(after));
  }

  lemma RefreshRemembers(b: Backend, tree: Sent, content: Content)
    requires Remembered(b) && Receivable(content)
    ensures Remembered(Drain(match content.parsed case Some(p) => Install(b, p, tree) case None => Fail(b)))
  {
    hide Drain, P.TablesAgree, T.Inspect, P.Activatable;
    var after := match content.parsed case Some(p) => Install(b, p, tree) case None => Fail(b);
    if content.parsed.Some? {
      var listed :| P.ParsedFrom(content.parsed.value, listed);
      P.ParsedTablesAgree(content.parsed.value, listed);
    }
    NothingRemembered(b.history.tree);
    DrainOnlyForgets(after);
    ForgettingRemembers(after, Drain(after));
  }

  lemma StepRemembers(b: Backend, e: Event)
    requires Remembered(b)
    ensures Remembered(Step(b, e))
  {
    hide FromLastTree, P.TablesAgree, Disconnect, Reply, Dispatch, Drain, BeginRefresh, RequestWindow, SubscriptionFrame, Receivable;
    NothingRemembered(b.history.tree);
    if Enabled(b, e) {
      match e {
        case RequestLost => DisconnectRemembers(b.(request := Unconnected));
        case SubscriptionLost => DisconnectRemembers(b.(subscription := Unconnected));
        case RefreshTimeout => BeginRefreshRemembers(b.(refreshTimer := false));
        case Answered(content) =>
          ReplyRemembers(b, content);
          DisconnectRemembers(b);
        case UnexpectedFrame(_) => DisconnectRemembers(b);
        case MalformedData => DisconnectRemembers(b);
        case Subscribed(kind, accepted) => SubscriptionRemembers(b, kind, accepted);
        case MalformedEvents => DisconnectRemembers(Fail(b));
        case Workspace(id) => DispatchRemembers(b, Activation(id, 0));
        case Slot(slot) => if slot > 0 { DispatchRemembers(b, Activation("", slot)); }
        case Window(r, resolution) => WindowRemembers(b, r, resolution);
        case _ =>
      }
    }
  }

  lemma SubscriptionRemembers(b: Backend, kind: nat, accepted: bool)
    requires Remembered(b)
    ensures Remembered(SubscriptionFrame(b, kind, accepted))
  {
    hide FromLastTree, P.TablesAgree, Disconnect;
    NothingRemembered(b.history.tree);
    DisconnectRemembers(Fail(b));
  }

  lemma BeginRefreshRemembers(b: Backend)
    requires Remembered(b)
    ensures Remembered(BeginRefresh(b))
  {
    hide FromLastTree, P.TablesAgree, Disconnect;
    DisconnectRemembers(Send(b.(dirty := false, workspaces := None, outputs := None, phase := Workspaces,
                               history := b.history.(owed := false)), GetWorkspaces));
  }

  lemma DispatchRemembers(b: Backend, a: Activation)
    requires Remembered(b)
    ensures Remembered(Dispatch(b, a))
  {
    DispatchOnlyForgets(b, a);
    ForgettingRemembers(b, Dispatch(b, a));
  }

  lemma WindowRemembers(b: Backend, r: W.Request, resolution: W.Resolution)
    requires Remembered(b) && |b.candidates| == |b.containers| && W.Resolves(r, b.candidates, resolution)
    ensures Remembered(RequestWindow(b, r, resolution).0)
  {
    hide Remembered;
    WindowOnlyForgets(b, r, resolution);
    ForgettingRemembers(b, RequestWindow(b, r, resolution).0);
  }

  lemma WindowOnlyForgets(b: Backend, r: W.Request, resolution: W.Resolution)
    requires |b.candidates| == |b.containers| && W.Resolves(r, b.candidates, resolution)
    ensures OnlyForgets(b, RequestWindow(b, r, resolution).0)
  {
    hide OnlyForgets, BeginWindow, Fail, ScheduleRefresh, W.NothingMatches, W.AnySelected;
    QueueingForgetsNothing(b);
    if resolution.outcome == W.Accepted && b.request == Connected && b.phase == Idle {
      BeginningForgetsNames(b, b.containers[resolution.index.value]);
    }
  }

  lemma QueueingForgetsNothing(b: Backend)
    ensures OnlyForgets(b, b) && forall window :: OnlyForgets(b, b.(pendingWindow := window))
  {}

  lemma BeginningForgetsNames(b: Backend, container: nat)
    ensures OnlyForgets(b, BeginWindow(b, container)) && OnlyForgets(b, ScheduleRefresh(Fail(BeginWindow(b, container))))
  {}

  lemma {:induction false} EveryRunRemembers(writes: seq<bool>, events: seq<Event>)
    ensures Remembered(Run(writes, events))
  {
    if events != [] {
      EveryRunRemembers(writes, events[..|events| - 1]);
      StepRemembers(Run(writes, events[..|events| - 1]), events[|events| - 1]);
    }
  }

  /**
   In every run: a window that is accepted stands at the end of a path of the layout tree last received, as a container
   with exactly the identifier to be focused and a process of the lineage asked for.
   */
  lemma AcceptedWindowIsInTheLastTree(writes: seq<bool>, events: seq<Event>, r: W.Request, resolution: W.Resolution)
    requires W.Resolves(r, Run(writes, events).candidates, resolution) && resolution.outcome == W.Accepted
    ensures var b, i := Run(writes, events), resolution.index.value;
            && i < |b.candidates| == |b.containers| && b.candidates[i].pid in r.lineage
            && b.history.tree.Some?
            && exists p ::
                 && T.IsPath(p, b.history.tree.value)
                 && T.ActivationOf(T.Last(p)) == Some(T.WindowInfo(b.candidates[i].pid, b.candidates[i].title, b.containers[i]))
  {
    EveryRunKeepsInvariant(writes, events);
    EveryRunRemembers(writes, events);
    var b, i := Run(writes, events), resolution.index.value;
    assert W.Preferred(r, b.candidates, i);
    P.ActivatableIsInTheTree(b.history.tree.value, i);
  }

  /** In every run: when slots may be used, each slot stands for the workspace named by its decimal text, and for no other. */
  lemma SlotsNameWorkspaces(writes: seq<bool>, events: seq<Event>)
    ensures P.TablesAgree(Run(writes, events).numbered, Run(writes, events).names)
  {
    EveryRunRemembers(writes, events);
  }

  // ---------------------------------------------------------------- an accepted window is under way

  /**
   Accepted means that focusing exactly the resolved window was sent or is queued, in the only slot there is; Busy means
   that the slot was taken; any other result sends nothing.
   */
  lemma AcceptedWindowIsUnderWay(b: Backend, r: W.Request, resolution: W.Resolution)
    requires Invariant(b) && W.Resolves(r, b.candidates, resolution)
    ensures var (b', outcome) := RequestWindow(b, r, resolution);
            && (outcome == W.Accepted ==>
                  && b.request == Connected && resolution.outcome == W.Accepted
                  && var container := b.containers[resolution.index.value];
                     || (b.phase != Idle && b.pendingWindow == None && b' == b.(pendingWindow := Some(container)))
                     || (b.phase == Idle && |b'.history.wire| == 1 && b'.history.wire[0].command == FocusWindow(container)))
            && (outcome == W.Busy <==> b.request == Connected && resolution.outcome == W.Accepted
                                       && b.phase != Idle && b.pendingWindow.Some?)
            && (outcome != W.Accepted ==> b'.history.wire == b.history.wire && b'.pendingWindow == b.pendingWindow)
  {}

  // ---------------------------------------------------------------- queued work

  /** The one command on the wire, if there is one. */
  function OnTheWire(b: Backend): Option<Command> {
    if b.history.wire == [] then None else Some(b.history.wire[|b.history.wire| - 1].command)
  }

  predicate Performable(b: Backend, a: Activation) {
    a.slot != 0 || a.id in b.names
  }

  /** The queued window was attempted; after a failed write a refresh is coming. */
  predicate WindowAttempted(b: Backend, c: Backend, container: nat) {
    && c.pendingWindow == None && c.pendingActivation == b.pendingActivation
    && (if NextWrite(b) then OnTheWire(c) == Some(FocusWindow(container)) && c.dirty == b.dirty
        else OnTheWire(c) == None && c.refreshTimer)
  }

  /** The queued workspace was attempted if it is still known; otherwise, or after a failed write, a refresh may follow. */
  predicate WorkspaceAttempted(b: Backend, c: Backend, a: Activation) {
    && c.pendingWindow == None && c.pendingActivation == None
    && (if !Performable(b, a) then OnTheWire(c) == None && (b.dirty ==> c.refreshTimer)
        else if NextWrite(b) then OnTheWire(c) == Some(ActivationCommand(b, a)) && c.dirty == b.dirty
        else OnTheWire(c) == None && c.refreshTimer)
  }

  /**
   When the machine becomes free, exactly one thing is attempted, whatever becomes of the write: the queued window, else
   the queued workspace, else a remembered refresh. What was not attempted stays queued.
   */
  lemma OneThingIsStarted(b: Backend)
    requires Settling(b)
    ensures var c := Drain(b);
            if b.pendingWindow.Some? then WindowAttempted(b, c, b.pendingWindow.value)
            else if b.pendingActivation.Some? then WorkspaceAttempted(b, c, b.pendingActivation.value)
            else OnTheWire(c) == None && (c.refreshTimer <==> b.refreshTimer || b.dirty)
  {
    hide TellsTruth, WindowAttempted, WorkspaceAttempted, Dispatch, BeginWindow;
    if b.pendingWindow.Some? {
      WindowIsAttempted(b);
    } else if b.pendingActivation.Some? {
      WorkspaceIsAttempted(b.(pendingActivation := None), b.pendingActivation.value);
      assert WorkspaceAttempted(b, Drain(b), b.pendingActivation.value) by {
        SameAttempt(b, b.(pendingActivation := None), Drain(b), b.pendingActivation.value);
      }
    }
  }

  /** The attempt does not depend on what was queued. */
  lemma SameAttempt(b: Backend, b': Backend, c: Backend, a: Activation)
    requires b'.(pendingActivation := b.pendingActivation) == b
    ensures WorkspaceAttempted(b, c, a) <==> WorkspaceAttempted(b', c, a)
  {}

  lemma WindowIsAttempted(b: Backend)
    requires Settling(b) && b.pendingWindow.Some?
    ensures WindowAttempted(b, Drain(b), b.pendingWindow.value)
  {
    hide TellsTruth, Dispatch;
  }

  lemma WorkspaceIsAttempted(b: Backend, a: Activation)
    requires b.request == Connected && b.phase == Idle && b.history.wire == []
    requires b.pendingWindow == None && b.pendingActivation == None
    ensures WorkspaceAttempted(b, Dispatch(b, a), a)
  {
    if Performable(b, a) && !NextWrite(b) {
      var failed := Fail(Send(b.(phase := WorkspaceActivation), ActivationCommand(b, a)).(phase := Idle)).(dirty := true);
      assert Dispatch(b, a) == Drain(failed);
    }
  }

  /** Several activations asked for one after the other. */
  function DispatchAll(b: Backend, activations: seq<Activation>): Backend
    decreases |activations|
  {
    if activations == [] then b else DispatchAll(Dispatch(b, activations[0]), activations[1..])
  }

  /** While the machine is busy only the latest of all workspaces asked for is kept; nothing else changes. */
  lemma {:induction false} LatestWorkspaceWins(b: Backend, activations: seq<Activation>)
    requires b.phase != Idle && b.request == Connected && activations != []
    ensures DispatchAll(b, activations) == b.(pendingActivation := Some(activations[|activations| - 1]))
    decreases |activations|
  {
    var c := Dispatch(b, activations[0]);
    if |activations| == 1 {
      assert DispatchAll(c, activations[1..]) == c;
    } else {
      LatestWorkspaceWins(c, activations[1..]);
    }
  }

  // ---------------------------------------------------------------- what is owed is served

  /** The next thing to happen when nobody asks for more: the outstanding answer, or else the timer. */
  ghost function Advance(b: Backend, content: Content): Backend {
    if b.phase == Idle then Step(b, RefreshTimeout) else Step(b, Answered(content))
  }

  ghost function AdvanceAll(b: Backend, contents: seq<Content>): Backend
    decreases |contents|
  {
    if contents == [] || b.request != Connected || !b.history.owed then b
    else AdvanceAll(Advance(b, contents[0]), contents[1..])
  }

  /** How many answers and timeouts lie before the next refresh starts. */
  function Distance(b: Backend): nat {
    2 * Queued(b) + match b.phase
                    case Idle => 1
                    case Workspaces => 4
                    case Outputs => 3
                    case _ => 2
  }

  lemma DrainWindowIsClose(b: Backend)
    requires b.phase == Idle && b.pendingWindow.Some?
    ensures Distance(Drain(b)) <= 2 * Queued(b) + 1
  {}

  lemma {:induction false} DrainIsClose(b: Backend)
    requires b.phase == Idle
    ensures Distance(Drain(b)) <= 2 * Queued(b) + 1
    decreases Queued(b), 0
  {
    if b.pendingWindow.Some? {
      DrainWindowIsClose(b);
    } else if b.pendingActivation.Some? {
      DispatchIsClose(b.(pendingActivation := None), b.pendingActivation.value);
    }
  }

  lemma {:induction false} DispatchIsClose(b: Backend, a: Activation)
    requires b.phase == Idle
    ensures Distance(Dispatch(b, a)) <= 2 * Queued(b) + 2
    decreases Queued(b), 1
  {
    if b.request == Connected {
      if a.slot == 0 && a.id !in b.names {
        DrainIsClose(b);
      } else if !NextWrite(b) {
        DrainIsClose(Fail(Send(b.(phase := WorkspaceActivation), ActivationCommand(b, a)).(phase := Idle)).(dirty := true));
      }
    }
  }

  lemma FinishIsCloser(b: Backend, content: Content)
    requires b.history.wire != [] && (b.phase == Tree || Activating(b.phase))
    ensures Distance(Reply(b, content)) < Distance(b)
  {
    hide Drain, Install, Fail;
    var b' := b.(history := b.history.(wire := b.history.wire[1..]), phase := Idle);
    FailAndInstallKeepQueue(b', b.history.wire[0]);
    var b'' := if b.phase == Tree then
                 match content.parsed case Some(p) => Install(b', p, b.history.wire[0]) case None => Fail(b')
               else (if content.success then b' else Fail(b')).(dirty := true);
    assert Reply(b, content) == Drain(b'');
    DrainIsClose(b'');
  }

  lemma FailAndInstallKeepQueue(b: Backend, tree: Sent)
    ensures Queued(Fail(b)) == Queued(b) && Fail(b).phase == b.phase
    ensures forall p :: Queued(Install(b, p, tree)) == Queued(b) && Install(b, p, tree).phase == b.phase
  {}

  lemma AdvanceIsCloser(b: Backend, content: Content)
    requires Invariant(b) && b.request == Connected && b.history.owed && Receivable(content)
    ensures var c := Advance(b, content);
            Invariant(c) && (c.request == Connected && c.history.owed ==> Distance(c) < Distance(b))
  {
    StepKeeps(b, if b.phase == Idle then RefreshTimeout else Answered(content));
    assert b.phase != Idle ==> KindOf(b.history.wire[0].command) == ExpectedKind(b.phase);
    if b.phase == Tree || Activating(b.phase) {
      FinishIsCloser(b, content);
    } else if b.phase == Idle {
      TimeoutStartsRefresh(b);
    } else {
      QueryIsCloser(b, content);
    }
    hide Truthful, Reply, BeginRefresh, NothingOffline, RefreshUnderWay, TellsTruth;
  }

  lemma TimeoutStartsRefresh(b: Backend)
    requires b.request == Connected && b.phase == Idle
    ensures var c := BeginRefresh(b.(refreshTimer := false)); c.request != Connected || !c.history.owed
  {}

  lemma QueryIsCloser(b: Backend, content: Content)
    requires b.phase in {Workspaces, Outputs} && b.history.wire != []
    ensures var c := Reply(b, content); c.request != Connected || Distance(c) < Distance(b)
  {
    hide Disconnect, FinishRefresh, FinishActivation, Drain;
    var b' := b.(history := b.history.(wire := b.history.wire[1..]));
    if !NextWrite(b) {
      DisconnectEnds(if b.phase == Workspaces then Send(b'.(workspaces := Some(b.history.wire[0]), phase := Outputs), GetOutputs)
                     else Send(b'.(outputs := Some(b.history.wire[0]), phase := Tree), GetTree));
    }
  }

  lemma DisconnectEnds(b: Backend)
    ensures Disconnect(b).request == Unconnected
  {}

  /**
   What is owed is served: if nothing else is asked for, then after as many answers and timeouts as Distance counts, and
   so after at most eight, a new refresh has been started or the connection was lost.
   */
  lemma {:induction false} OwedRefreshStarts(b: Backend, contents: seq<Content>)
    requires Invariant(b) && |contents| >= Distance(b) && forall content :: content in contents ==> Receivable(content)
    ensures Distance(b) <= 8
    ensures var c := AdvanceAll(b, contents); c.request != Connected || !c.history.owed
    decreases |contents|
  {
    if b.request == Connected && b.history.owed {
      var c := Advance(b, contents[0]);
      AdvanceIsCloser(b, contents[0]);
      if c.request == Connected && c.history.owed {
        OwedRefreshStarts(c, contents[1..]);
      }
    }
  }
}
