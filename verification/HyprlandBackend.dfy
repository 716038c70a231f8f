/** HyprlandBackend.cpp as a class; every method is proved to do what its function in HyprlandSession says. */
module HyprlandBackend {
  import opened Numerals
  import opened Prelude
  import S = HyprlandSession
  import G = HyprlandGuarantees
  import W = WindowActivation

  class HyprlandBackend {
    /** The transport: the command it runs, and which coming commands it takes while idle. */
    var running: Option<S.Issued>
    var accepts: seq<bool>
    var phase: S.Phase
    var dirty: bool
    var scheduled: bool
    var monitors: Option<S.Issued>
    var workspaces: Option<S.Issued>
    var activationId: string
    var activationIsSpecial: bool
    var windowAddress: string
    var pendingActivation: string
    var pendingWindow: Option<string>
    var assignments: map<string, int>
    var specials: seq<string>
    var candidates: seq<W.Candidate>
    var addresses: seq<string>
    var urgent: set<string>
    var history: S.History

    ghost function View(): S.Backend
      reads this
    {
      S.Backend(running, accepts, phase, dirty, scheduled, monitors, workspaces, activationId, activationIsSpecial,
                windowAddress, pendingActivation, pendingWindow, assignments, specials, candidates, addresses, urgent,
                history)
    }

    constructor (foretold: seq<bool>)
      ensures View() == S.Initial(foretold)
    {
      running, accepts, phase, dirty, scheduled := None, foretold, S.Idle, false, false;
      monitors, workspaces, activationId, activationIsSpecial, windowAddress := None, None, "", false, "";
      pendingActivation, pendingWindow, assignments, specials := "", None, map[], [];
      candidates, addresses, urgent, history := [], [], {}, S.History(0, 0, []);
    }

    method Taken() returns (ok: bool)
      requires running == None
      modifies this`accepts
      ensures ok == S.NextAccepted(old(View()))
      ensures View() == old(View()).(accepts := if old(accepts) == [] then [] else old(accepts)[1..])
    {
      ok := true;
      if accepts != [] {
        ok := accepts[0];
        accepts := accepts[1..];
      }
    }

    method RunCommand(c: S.Command) returns (ok: bool)
      modifies this`running, this`accepts, this`history
      ensures View() == S.Issue(old(View()), c) && ok == S.NextAccepted(old(View()))
    {
      if running.Some? {
        return false;
      }
      ok := Taken();
      if ok {
        running := Some(S.Issued(history.sends, history.session, phase, c));
        history := history.(sends := history.sends + 1);
      }
    }

    method EmitOffline()
      modifies this`assignments, this`specials, this`history
      ensures View() == S.EmitOffline(old(View()))
    {
      history := history.(published := history.published + [S.Offline]);
      assignments := map[];
      specials := [];
    }

    method Fail()
      modifies this`phase, this`assignments, this`specials, this`history
      ensures View() == S.Fail(old(View()))
    {
      phase := S.Idle;
      EmitOffline();
    }

    method ScheduleRefresh()
      modifies this`dirty, this`scheduled
      ensures View() == S.ScheduleRefresh(old(View()))
    {
      if phase != S.Idle || running.Some? {
        dirty := true;
        return;
      }
      if scheduled {
        return;
      }
      scheduled := true;
    }

    method BeginRefresh()
      modifies this
      ensures View() == S.BeginRefresh(old(View()))
    {
      hide S.Query;
      if phase != S.Idle || running.Some? {
        dirty := true;
        return;
      }
      dirty := false;
      Query(S.Monitors, S.ListMonitors);
    }

    method Query(next: S.Phase, c: S.Command)
      modifies this
      ensures View() == S.Query(old(View()), next, c)
    {
      hide S.Issue, S.Fail;
      phase := next;
      var ok := RunCommand(c);
      if !ok {
        Fail();
      }
    }

    method HandleEvent(address: Option<string>)
      modifies this
      ensures View() == S.EventLine(old(View()), address)
    {
      if address.Some? {
        urgent := urgent + {address.value};
      }
      ScheduleRefresh();
    }

    method StreamDisconnected()
      modifies this
      ensures View() == S.StreamLost(old(View()))
    {
      ForgetPending();
      ForgetWindows();
      Fail();
      history := history.(session := history.session + 1);
    }

    method ForgetPending()
      modifies this`pendingActivation, this`pendingWindow
      ensures View() == old(View()).(pendingActivation := "", pendingWindow := None)
    {
      pendingActivation := "";
      pendingWindow := None;
    }

    method ForgetWindows()
      modifies this`candidates, this`addresses, this`urgent
      ensures View() == old(View()).(candidates := [], addresses := [], urgent := {})
    {
      candidates := [];
      addresses := [];
      urgent := {};
    }

    method BeginWindowActivation(address: string) returns (ok: bool)
      modifies this`running, this`accepts, this`history, this`windowAddress, this`phase
      ensures View() == S.BeginWindow(old(View()), address) && ok == S.NextAccepted(old(View()))
    {
      hide S.Issue;
      windowAddress := address;
      phase := S.WindowActivation;
      ok := RunCommand(S.FocusAddress(address));
      if !ok {
        phase := S.Idle;
      }
    }

    method DispatchWorkspace(id: string)
      modifies this
      ensures View() == S.DispatchWorkspace(old(View()), id)
    {
      hide S.Issue, S.Fail, S.ReadsAsInt;
      if !S.ReadsAsInt(id) && !S.IsSpecial(id) {
        return;
      }
      if phase != S.Idle || running.Some? {
        pendingActivation := id;
        return;
      }
      BeginActivation(id);
    }

    method BeginActivation(id: string)
      requires S.Dispatchable(id) && S.Free(View())
      modifies this
      ensures View() == S.DispatchWorkspace(old(View()), id)
    {
      hide S.Issue, S.Fail, S.ReadsAsInt;
      var special := S.IsSpecial(id);
      activationId := id;
      activationIsSpecial := special;
      phase := S.WorkspaceActivation;
      var command := if special then S.ToggleSpecial(id[|S.SPECIAL_PREFIX|..]) else S.FocusWorkspace(id);
      var ok := RunCommand(command);
      if !ok {
        Fail();
      }
    }

    method DrainWindow()
      requires S.Free(View()) && pendingWindow.Some?
      modifies this
      ensures View() == S.Drain(old(View()))
    {
      hide S.BeginWindow, S.EmitOffline, S.ScheduleRefresh, S.DispatchWorkspace;
      var address := pendingWindow.value;
      pendingWindow := None;
      var ok := BeginWindowActivation(address);
      if !ok {
        EmitOffline();
        dirty := true;
        ScheduleRefresh();
      }
    }

    method DrainWork()
      modifies this
      ensures View() == S.Drain(old(View()))
    {
      hide S.BeginWindow, S.EmitOffline, S.ScheduleRefresh, S.DispatchWorkspace;
      if phase != S.Idle || running.Some? {
        return;
      }
      if pendingWindow.Some? {
        DrainWindow();
        return;
      }
      if pendingActivation != "" {
        var activation := pendingActivation;
        pendingActivation := "";
        DispatchWorkspace(activation);
        return;
      }
      if dirty {
        ScheduleRefresh();
      }
    }

    method RunLuaActivation()
      requires activationIsSpecial ==> S.IsSpecial(activationId)
      modifies this
      ensures View() == S.RunLuaActivation(old(View()))
    {
      hide S.Query;
      var command;
      if activationIsSpecial {
        command := S.LuaSpecial(activationId[|S.SPECIAL_PREFIX|..]);
      } else {
        command := S.LuaWorkspace(activationId);
      }
      Query(S.LuaActivation, command);
    }

    method RunLuaWindowActivation()
      modifies this
      ensures View() == S.RunLuaWindowActivation(old(View()))
    {
      hide S.Query;
      Query(S.LuaWindowActivation, S.LuaAddress(windowAddress));
    }

    method PublishClients(reply: S.Issued, parsed: Option<S.Parsed>)
      modifies this
      ensures View() == S.Publish(old(View()), reply, parsed)
    {
      hide S.Fail;
      if parsed == None {
        Fail();
        return;
      }
      InstallNames(parsed.value);
      InstallWindows(parsed.value.windows);
      history := history.(published := history.published +
        [if monitors.Some? && workspaces.Some? then S.Online(monitors.value, workspaces.value, reply) else S.Offline]);
    }

    method InstallNames(p: S.Parsed)
      modifies this`assignments, this`specials, this`urgent
      ensures View() == old(View()).(assignments := p.assignments, specials := p.specials, urgent := old(urgent) - p.seen)
    {
      assignments := p.assignments;
      specials := p.specials;
      urgent := urgent - p.seen;
    }

    method InstallWindows(windows: seq<(W.Candidate, string)>)
      modifies this`candidates, this`addresses
      ensures View() == old(View()).(candidates := Lefts(windows), addresses := Rights(windows))
    {
      var newCandidates, newAddresses := [], [];
      for i := 0 to |windows|
        invariant newCandidates == Lefts(windows[..i]) && newAddresses == Rights(windows[..i])
      {
        assert windows[..i + 1][..i] == windows[..i];
        newCandidates := newCandidates + [windows[i].0];
        newAddresses := newAddresses + [windows[i].1];
      }
      assert windows[..|windows|] == windows;
      candidates := newCandidates;
      addresses := newAddresses;
    }

    method Settle()
      modifies this
      ensures View() == S.Settle(old(View()))
    {
      hide S.Drain;
      phase := S.Idle;
      dirty := true;
      DrainWork();
    }

    method RejectLua()
      modifies this
      ensures View() == S.Settle(S.EmitOffline(old(View()).(phase := S.Idle)))
    {
      hide S.Drain, S.EmitOffline;
      phase := S.Idle;
      EmitOffline();
      Settle();
    }

    method HandleCommandFailure(failed: S.Phase)
      requires phase == S.Idle
      modifies this
      ensures View() == S.CommandFailed(old(View()).(phase := failed))
    {
      hide S.Drain;
      EmitOffline();
      if S.Activating(failed) {
        dirty := true;
      }
      DrainWork();
    }

    /** commandFinished; the transport is free again when it is emitted. */
    method HandleCommand(success: bool, content: S.Content)
      requires running.Some? && G.WellFormed(View())
      modifies this
      ensures View() == S.Finished(old(View()), success, content)
    {
      hide S.Query, S.Drain, S.CommandFailed, S.Settle, S.EmitOffline, S.RunLuaActivation, S.RunLuaWindowActivation,
           S.Publish, S.ReadsAsInt;
      var reply := running.value;
      running := None;
      if !success {
        var failed := phase;
        phase := S.Idle;
        HandleCommandFailure(failed);
        return;
      }
      match phase {
        case Monitors =>
          monitors := Some(reply);
          Query(S.Workspaces, S.ListWorkspaces);
        case Workspaces =>
          workspaces := Some(reply);
          Query(S.Clients, S.ListClients);
        case Clients =>
          phase := S.Idle;
          PublishClients(reply, content.parsed);
          DrainWork();
        case Idle =>
        case _ =>
          HandleActivation(reply, content);
      }
    }

    /** The answer to a dispatch: an error makes way for the Lua form, or ends the attempt. */
    method HandleActivation(ghost reply: S.Issued, content: S.Content)
      requires running == None && S.Activating(phase) && G.WellFormed(View())
      modifies this
      ensures View() == S.Finished(old(View()).(running := Some(reply)), true, content)
    {
      hide S.Query, S.Drain, S.Settle, S.EmitOffline, S.RunLuaActivation, S.RunLuaWindowActivation, S.ReadsAsInt;
      assert View().(running := Some(reply)).(running := None) == View();
      if !content.isError {
        Settle();
      } else if phase == S.WorkspaceActivation {
        RunLuaActivation();
      } else if phase == S.WindowActivation {
        RunLuaWindowActivation();
      } else {
        RejectLua();
      }
    }

    method RequestWindowActivation(r: W.Request) returns (outcome: W.Outcome)
      requires |candidates| == |addresses|
      modifies this
      ensures exists resolution ::
                && W.Resolves(r, old(candidates), resolution)
                && (View(), outcome) == S.RequestWindow(old(View()), r, resolution)
    {
      hide S.Issue, S.EmitOffline, S.ScheduleRefresh, S.BeginWindow, W.Selected, W.NothingMatches, W.AnySelected;
      var resolution := W.Resolve(r, candidates);
      if resolution.outcome != W.Accepted {
        return resolution.outcome;
      }
      SelectedIsCandidate(r, resolution);
      var address := addresses[resolution.index.value];
      if phase != S.Idle || running.Some? {
        if pendingWindow.Some? {
          return W.Busy;
        }
        pendingWindow := Some(address);
        return W.Accepted;
      }
      var ok := BeginWindowActivation(address);
      if !ok {
        EmitOffline();
        ScheduleRefresh();
        return W.Failed;
      }
      return W.Accepted;
    }

    lemma SelectedIsCandidate(r: W.Request, resolution: W.Resolution)
      requires W.Resolves(r, candidates, resolution) && resolution.outcome == W.Accepted
      ensures resolution.index.value < |candidates|
    {}

    method ActivateWorkspace(id: string)
      modifies this
      ensures View() == S.ActivateWorkspace(old(View()), id)
    {
      hide S.DispatchWorkspace;
      if id in assignments {
        DispatchWorkspace(id);
      }
    }

    method ActivateNumberedSlot(slot: int)
      modifies this
      ensures View() == S.ActivateSlot(old(View()), slot)
    {
      hide S.DispatchWorkspace;
      if slot > 0 {
        DispatchWorkspace(Decimal(slot));
      }
    }

    method ActivateSpecialWorkspace(id: string)
      modifies this
      ensures View() == S.ActivateSpecial(old(View()), id)
    {
      hide S.DispatchWorkspace;
      for i := 0 to |specials|
        invariant View() == old(View()) && id !in specials[..i]
      {
        if specials[i] == id {
          DispatchWorkspace(id);
          return;
        }
      }
    }
  }
}
