/** SwayBackend.cpp as a class; every method is proved to do what its function in SwaySession says. */
module SwayBackend {
  import opened Prelude
  import S = SwaySession
  import W = WindowActivation
  import N = SwayWorkspaces
  import P = SwayRefresh

  class SwayBackend {
    var request: S.Link
    var subscription: S.Link
    var subscriptionReady: bool
    /** Outcomes of the coming socket writes. */
    var writes: seq<bool>
    var phase: S.Phase
    var refreshTimer: bool
    var reconnectTimer: bool
    var reconnectDelay: nat
    var dirty: bool
    var pendingWindow: Option<nat>
    var pendingActivation: Option<S.Activation>
    var workspaces: Option<S.Sent>
    var outputs: Option<S.Sent>
    var numbered: N.Numbering
    var names: map<string, string>
    var candidates: seq<W.Candidate>
    var containers: seq<nat>
    ghost var history: S.History

    ghost function View(): S.Backend
      reads this
    {
      S.Backend(request, subscription, subscriptionReady, writes, phase, refreshTimer, reconnectTimer, reconnectDelay,
                dirty, pendingWindow, pendingActivation, workspaces, outputs, numbered, names, candidates, containers,
                history)
    }

    constructor (foretold: seq<bool>)
      ensures View() == S.Initial(foretold)
    {
      request, subscription, subscriptionReady, writes := S.Unconnected, S.Unconnected, false, foretold;
      phase, refreshTimer, reconnectTimer, reconnectDelay, dirty := S.Idle, false, false, 1000, false;
      pendingWindow, pendingActivation, workspaces, outputs := None, None, None, None;
      numbered, names, candidates, containers := S.NO_NUMBERS, map[], [], [];
      history := S.History([], 0, 0, false, [], None);
    }

    method ConnectSockets()
      modifies this
      ensures View() == S.Connect(old(View()))
    {
      phase := S.Idle;
      subscriptionReady := false;
      request := S.Connecting;
      subscription := S.Connecting;
    }

    method SendRequest(c: S.Command) returns (ok: bool)
      modifies this`writes, this`history
      ensures View() == S.Send(old(View()), c) && ok == S.NextWrite(old(View()))
    {
      ok := true;
      if writes != [] {
        ok := writes[0];
        writes := writes[1..];
      }
      if ok {
        history := history.(wire := history.wire + [S.Sent(history.sends, history.session, c)], sends := history.sends + 1);
      }
    }

    method Fail()
      modifies this`numbered, this`names, this`history
      ensures View() == S.Fail(old(View()))
    {
      numbered := N.Numbering(false, map[]);
      names := map[];
      history := history.(published := history.published + [S.Offline]);
    }

    method ScheduleReconnect()
      modifies this`reconnectTimer, this`reconnectDelay
      ensures View() == S.ScheduleReconnect(old(View()))
    {
      if reconnectTimer {
        return;
      }
      reconnectTimer := true;
      reconnectDelay := if reconnectDelay * 2 < 30000 then reconnectDelay * 2 else 30000;
    }

    method ForgetReplies()
      modifies this`phase, this`workspaces, this`outputs
      ensures View() == old(View()).(phase := S.Idle, workspaces := None, outputs := None)
    {
      phase := S.Idle;
      workspaces := None;
      outputs := None;
    }

    method ForgetWindows()
      modifies this`candidates, this`containers
      ensures View() == old(View()).(candidates := [], containers := [])
    {
      candidates := [];
      containers := [];
    }

    method ForgetWork()
      modifies this`pendingWindow, this`pendingActivation, this`dirty
      ensures View() == old(View()).(pendingWindow := None, pendingActivation := None, dirty := false)
    {
      pendingWindow := None;
      pendingActivation := None;
      dirty := false;
    }

    /** Both sockets abort: what was on the wire is gone. */
    method Abort()
      modifies this`request, this`subscription, this`history
      ensures View() == old(View()).(request := S.Unconnected, subscription := S.Unconnected,
                                     history := old(history).(wire := [], session := old(history.session) + 1))
    {
      request := S.Unconnected;
      subscription := S.Unconnected;
      history := history.(wire := [], session := history.session + 1);
    }

    method DisconnectSession()
      modifies this
      ensures View() == S.Disconnect(old(View()))
    {
      hide S.ScheduleReconnect;
      if request == S.Unconnected && subscription == S.Unconnected && reconnectTimer {
        return;
      }
      ForgetReplies();
      ForgetWindows();
      ForgetWork();
      Fail();
      Abort();
      ScheduleReconnect();
    }

    method ScheduleRefresh()
      modifies this`dirty, this`refreshTimer
      ensures View() == S.ScheduleRefresh(old(View()))
    {
      if phase != S.Idle {
        dirty := true;
        return;
      }
      if !refreshTimer {
        refreshTimer := true;
      }
    }

    method BeginRefresh()
      modifies this
      ensures View() == S.BeginRefresh(old(View()))
    {
      hide S.Send, S.Disconnect;
      if request != S.Connected || phase != S.Idle {
        return;
      }
      dirty := false;
      workspaces := None;
      outputs := None;
      phase := S.Workspaces;
      history := history.(owed := false);
      var ok := SendRequest(S.GetWorkspaces);
      if !ok {
        DisconnectSession();
      }
    }

    method BeginWindowActivation(container: nat) returns (ok: bool)
      modifies this`phase, this`writes, this`history
      ensures View() == S.BeginWindow(old(View()), container) && ok == S.NextWrite(old(View()))
    {
      phase := S.WindowActivation;
      ok := SendRequest(S.FocusWindow(container));
      if ok {
        return;
      }
      phase := S.Idle;
    }

    method DrainWindow()
      requires phase == S.Idle && pendingWindow.Some?
      modifies this
      ensures View() == S.Drain(old(View()))
    {
      hide S.Send, S.BeginWindow, S.Fail, S.ScheduleRefresh, S.Dispatch;
      var container := pendingWindow.value;
      pendingWindow := None;
      var ok := BeginWindowActivation(container);
      if !ok {
        Fail();
        dirty := true;
        ScheduleRefresh();
      }
    }

    method DrainWork()
      modifies this
      ensures View() == S.Drain(old(View()))
      decreases S.Queued(View()), 0
    {
      hide S.Send, S.BeginWindow, S.Fail, S.ScheduleRefresh, S.Dispatch;
      if phase != S.Idle {
        return;
      }
      if pendingWindow.Some? {
        DrainWindow();
        return;
      }
      if pendingActivation.Some? {
        var activation := pendingActivation.value;
        pendingActivation := None;
        DispatchActivation(activation);
        return;
      }
      if dirty {
        ScheduleRefresh();
      }
    }

    method BeginActivation(a: S.Activation) returns (ok: bool)
      modifies this`phase, this`writes, this`history
      ensures ok == S.NextWrite(old(View()))
      ensures var command := S.ActivationCommand(old(View()), a);
              var sent := S.Send(old(View()).(phase := S.WorkspaceActivation), command);
              View() == if ok then sent else sent.(phase := S.Idle)
    {
      var command := if a.slot > 0 then S.FocusSlot(a.slot) else S.FocusName(if a.id in names then names[a.id] else "");
      phase := S.WorkspaceActivation;
      ok := SendRequest(command);
      if !ok {
        phase := S.Idle;
      }
    }

    method ActivationFailed()
      modifies this
      ensures View() == S.Drain(S.Fail(old(View())).(dirty := true))
      decreases S.Queued(View()), 1, 0
    {
      hide S.Drain, S.Fail;
      Fail();
      dirty := true;
      DrainWork();
    }

    method DispatchActivation(a: S.Activation)
      modifies this
      ensures View() == S.Dispatch(old(View()), a)
      decreases S.Queued(View()), 1, 1
    {
      hide S.Send, S.Drain, S.Fail, S.NextWrite, S.ActivationCommand;
      if request != S.Connected {
        return;
      }
      if phase != S.Idle {
        pendingActivation := Some(a);
        return;
      }
      if a.slot == 0 && a.id !in names {
        DrainWork();
        return;
      }
      var ok := BeginActivation(a);
      if !ok {
        ActivationFailed();
      }
    }

    method ActivateWorkspace(id: string)
      modifies this
      ensures View() == S.ActivateWorkspace(old(View()), id)
    {
      hide S.Dispatch;
      if id in names {
        DispatchActivation(S.Activation(id, 0));
      }
    }

    method ActivateNumberedSlot(slot: int)
      modifies this
      ensures View() == S.ActivateSlot(old(View()), slot)
    {
      hide S.Dispatch;
      if slot > 0 {
        DispatchActivation(S.Activation("", slot));
      }
    }

    method FinishRefresh(tree: S.Sent, parsed: Option<P.Parsed>)
      modifies this
      ensures View() == S.FinishRefresh(old(View()), tree, parsed)
    {
      hide S.Drain, S.Fail, S.Install;
      phase := S.Idle;
      if parsed.Some? {
        Install(parsed.value, tree);
      } else {
        Fail();
      }
      DrainWork();
    }

    method Install(p: P.Parsed, tree: S.Sent)
      modifies this`reconnectDelay, this`numbered, this`names, this`candidates, this`containers, this`history
      ensures View() == S.Install(old(View()), p, tree)
    {
      InstallNames(p);
      ForgetWindows();
      Remember(p.windows);
      history := history.(tree := Some(p.tree), published := history.published +
        [if workspaces.Some? && outputs.Some? then S.Online(workspaces.value, outputs.value, tree) else S.Offline]);
    }

    method InstallNames(p: P.Parsed)
      modifies this`reconnectDelay, this`numbered, this`names
      ensures View() == old(View()).(reconnectDelay := S.INITIAL_DELAY, numbered := p.numbered, names := p.names)
    {
      reconnectDelay := 1000;
      numbered := p.numbered;
      names := p.names;
    }

    method Remember(windows: seq<(W.Candidate, nat)>)
      requires candidates == [] && containers == []
      modifies this`candidates, this`containers
      ensures View() == old(View()).(candidates := Lefts(windows), containers := Rights(windows))
    {
      for i := 0 to |windows|
        invariant candidates == Lefts(windows[..i]) && containers == Rights(windows[..i])
      {
        assert windows[..i + 1][..i] == windows[..i];
        candidates := candidates + [windows[i].0];
        containers := containers + [windows[i].1];
      }
      assert windows[..|windows|] == windows;
    }

    method FinishActivation(success: bool)
      modifies this
      ensures View() == S.FinishActivation(old(View()), success)
    {
      hide S.Drain, S.Fail;
      phase := S.Idle;
      if !success {
        Fail();
      }
      dirty := true;
      DrainWork();
    }

    method Query(next: S.Phase, command: S.Command) returns (ok: bool)
      modifies this
      ensures ok == S.NextWrite(old(View()))
      ensures View() == var sent := S.Send(old(View()).(phase := next), command); if ok then sent else S.Disconnect(sent)
    {
      hide S.Send, S.Disconnect;
      phase := next;
      ok := SendRequest(command);
      if !ok {
        DisconnectSession();
      }
    }

    /** A frame on the request socket; `sent` is the command it answers. */
    method HandleRequestFrame(kind: nat, sent: S.Sent, content: S.Content) returns (more: bool)
      requires phase != S.Idle && kind == S.ExpectedKind(phase) ==> history.wire != [] && sent == history.wire[0]
      modifies this
      ensures kind != S.ExpectedKind(old(phase)) ==> View() == S.Disconnect(old(View())) && !more
      ensures kind == S.ExpectedKind(old(phase)) && old(phase) != S.Idle ==> View() == S.Reply(old(View()), content)
      ensures kind == S.ExpectedKind(old(phase)) && old(phase) == S.Idle ==> View() == old(View()) && !more
      ensures kind == S.ExpectedKind(old(phase)) && old(phase) != S.Idle ==>
                (more <==> old(phase) !in {S.Workspaces, S.Outputs} || S.NextWrite(old(View())))
    {
      hide S.Send, S.Disconnect, S.FinishRefresh, S.FinishActivation;
      if kind != S.ExpectedKind(phase) {
        DisconnectSession();
        return false;
      }
      if phase == S.Idle {
        return false;
      }
      history := history.(wire := history.wire[1..]);
      match phase {
        case Workspaces =>
          workspaces := Some(sent);
          more := Query(S.Outputs, S.GetOutputs);
          return;
        case Outputs =>
          outputs := Some(sent);
          more := Query(S.Tree, S.GetTree);
          return;
        case Tree =>
          FinishRefresh(sent, content.parsed);
        case WorkspaceActivation =>
          FinishActivation(content.success);
        case WindowActivation =>
          FinishActivation(content.success);
      }
      return true;
    }

    method HandleSubscriptionFrame(kind: nat, accepted: bool) returns (more: bool)
      modifies this
      ensures View() == S.SubscriptionFrame(old(View()), kind, accepted)
      ensures more <==> if old(subscriptionReady) then kind / S.EVENT_BIT % 2 == 1 else kind == S.SUBSCRIBE_KIND && accepted
    {
      hide S.Disconnect, S.Fail, S.ScheduleRefresh;
      if !subscriptionReady {
        if kind != S.SUBSCRIBE_KIND || !accepted {
          Fail();
          DisconnectSession();
          return false;
        }
        subscriptionReady := true;
        return true;
      }
      if kind / S.EVENT_BIT % 2 == 0 {
        Fail();
        DisconnectSession();
        return false;
      }
      history := history.(owed := true);
      ScheduleRefresh();
      return true;
    }

    method RequestWindowActivation(r: W.Request) returns (outcome: W.Outcome)
      requires |candidates| == |containers|
      modifies this
      ensures exists resolution ::
                && W.Resolves(r, old(candidates), resolution)
                && (View(), outcome) == S.RequestWindow(old(View()), r, resolution)
    {
      hide S.Send, S.Fail, S.ScheduleRefresh, S.BeginWindow, W.Selected, W.NothingMatches, W.AnySelected;
      var valid := W.IsValid(r);
      var resolution := W.Resolve(r, candidates);
      if !valid {
        return W.InvalidRequest;
      }
      if request != S.Connected {
        return W.Disconnected;
      }
      if resolution.outcome != W.Accepted {
        return resolution.outcome;
      }
      SelectedIsCandidate(r, resolution);
      var container := containers[resolution.index.value];
      if phase != S.Idle {
        if pendingWindow.Some? {
          return W.Busy;
        }
        pendingWindow := Some(container);
        return W.Accepted;
      }
      var ok := BeginWindowActivation(container);
      if !ok {
        Fail();
        ScheduleRefresh();
        return W.Failed;
      }
      return W.Accepted;
    }

    lemma SelectedIsCandidate(r: W.Request, resolution: W.Resolution)
      requires W.Resolves(r, candidates, resolution) && resolution.outcome == W.Accepted
      ensures resolution.index.value < |candidates|
    {}
  }
}
