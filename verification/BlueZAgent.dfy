/** BlueZAgent.cpp as a class; every method is proved to do what its function in AgentSpec says. */
module BlueZAgent {
  import opened Numerals
  import opened Prelude
  import opened TextSizes
  import S = AgentSpec

  datatype History = History(replies: seq<S.Reply>, minted: set<Id>, canceled: seq<Id>)

  class BlueZAgent {
    var owner: string
    var devices: map<string, Id>
    var pending: map<Id, S.Entry>
    /** The number of the D-Bus message being handled. */
    var calls: nat
    ghost var history: History

    ghost function View(): S.Agent
      reads this
    {
      S.Agent(owner, devices, pending, calls, history.replies, history.minted, history.canceled)
    }

    constructor ()
      ensures View() == S.Initial()
    {
      owner, devices, pending, calls, history := "", map[], map[], 0, History([], {}, []);
    }

    method ReplyNow(answer: S.Answer)
      modifies this`calls, this`history
      ensures View() == S.ReplyNow(old(View()), answer)
    {
      history := history.(replies := history.replies + [S.Reply(calls, answer)]);
      calls := calls + 1;
    }

    method Authorized(caller: string) returns (ok: bool)
      modifies this`calls, this`history
      ensures ok == S.Authorized(old(View()), caller)
      ensures View() == if ok then old(View()) else S.ReplyNow(old(View()), S.Rejected)
    {
      if owner != "" && caller == owner {
        return true;
      }
      ReplyNow(S.Rejected);
      return false;
    }

    method Respond(id: Id, accept: bool, input: string)
      modifies this`pending, this`history
      ensures View() == S.Respond(old(View()), id, accept, input)
    {
      if id !in pending {
        return;
      }
      var p := pending[id];
      var arguments := S.NoArguments;
      if accept && p.request.kind == S.PinEntry {
        if input == "" || Utf16Size(input) > 16 || '\0' in input {
          return;
        }
        arguments := S.Pin(input);
      }
      if accept && p.request.kind == S.PasskeyEntry {
        if !S.ValidPasskey(input) {
          return;
        }
        arguments := S.Passkey(NumberOf(S.PasskeyText(input)));
      }
      assert S.ArgumentsFor(p.request.kind, accept, input) == Some(arguments);
      pending := pending - {id};
      if S.Delayed(p.request.kind) {
        history := history.(replies := history.replies + [S.Reply(p.call, if accept then S.Accepted(arguments) else S.Rejected)]);
      }
      history := history.(canceled := history.canceled + [id]);
    }

    method Clear() returns (ghost order: seq<Id>)
      modifies this`pending, this`history
      ensures S.Enumerates(order, old(pending).Keys)
      ensures View() == S.DismissAll(old(View()), order)
    {
      hide S.Respond;
      var ids := pending.Keys;
      order := [];
      while ids != {}
        invariant Distinct(order) && ids <= old(pending).Keys
        invariant forall id :: id in order <==> id in old(pending).Keys - ids
        invariant View() == S.DismissAll(old(View()), order)
      {
        var id :| id in ids;
        assert (order + [id])[..|order|] == order && forall j :: 0 <= j < |order| ==> order[j] in order;
        Respond(id, false, "");
        ids := ids - {id};
        order := order + [id];
      }
    }

    method SetOwner(newOwner: string) returns (ghost order: seq<Id>)
      modifies this
      ensures S.Enumerates(order, old(pending).Keys)
      ensures View() == S.SetOwner(old(View()), newOwner, order)
    {
      order := Clear();
      owner := newOwner;
    }

    method SetDevices(newDevices: map<string, Id>) returns (ghost order: seq<Id>)
      modifies this`devices, this`pending, this`history
      ensures S.Enumerates(order, old(pending).Keys)
      ensures View() == S.SetDevices(old(View()), newDevices, order)
    {
      hide S.Respond;
      devices := newDevices;
      var copy := pending;
      ghost var start := View();
      var ids := copy.Keys;
      order := [];
      while ids != {}
        invariant Distinct(order) && ids <= copy.Keys
        invariant forall id :: id in order <==> id in copy.Keys - ids
        invariant devices == newDevices && copy == start.pending
        invariant View() == S.DismissUnknown(start, order)
      {
        var id :| id in ids;
        assert (order + [id])[..|order|] == order && forall j :: 0 <= j < |order| ==> order[j] in order;
        if copy[id].request.device !in devices.Values {
          Respond(id, false, "");
        }
        ids := ids - {id};
        order := order + [id];
      }
    }

    /** `resolved` is what the device resolver would answer for the path. */
    method Request(caller: string, path: string, kind: S.Kind, code: string, service: string, entered: nat, resolved: Id, id: Id)
      requires S.OneDisplay(pending) && id !in history.minted
      modifies this`devices, this`pending, this`calls, this`history
      ensures View() == S.Ask(old(View()), caller, S.Call(path, kind, code, service, entered, resolved, id))
    {
      hide S.ReplyNow;
      var ok := Authorized(caller);
      if !ok {
        return;
      }
      var device := if path in devices then devices[path] else "";
      if device == "" {
        device := resolved;
        if device != "" {
          devices := devices[path := device];
        }
      }
      assert View() == S.Resolve(old(View()), path, resolved) && device == S.DeviceAt(devices, path);
      if device == "" {
        ReplyNow(S.Rejected);
        return;
      }
      var shown := FindShown(device, kind);
      if shown.Some? {
        pending := pending[shown.value := S.Update(pending[shown.value], code, entered)];
        ReplyNow(S.Returned);
        return;
      }
      Admit(device, S.Call(path, kind, code, service, entered, resolved, id));
    }

    method DisplayPasskey(caller: string, path: string, passkey: nat, entered: nat, resolved: Id, id: Id)
      requires S.OneDisplay(pending) && id !in history.minted
      modifies this`devices, this`pending, this`calls, this`history
      ensures View() == S.Ask(old(View()), caller, S.Call(path, S.PasskeyDisplay, S.PasskeyCode(passkey), "", entered, resolved, id))
    {
      hide S.Ask;
      Request(caller, path, S.PasskeyDisplay, S.PasskeyCode(passkey), "", entered, resolved, id);
    }

    method RequestConfirmation(caller: string, path: string, passkey: nat, resolved: Id, id: Id)
      requires S.OneDisplay(pending) && id !in history.minted
      modifies this`devices, this`pending, this`calls, this`history
      ensures View() == S.Ask(old(View()), caller, S.Call(path, S.Confirmation, S.PasskeyCode(passkey), "", 0, resolved, id))
    {
      hide S.Ask;
      Request(caller, path, S.Confirmation, S.PasskeyCode(passkey), "", 0, resolved, id);
    }

    method FindShown(device: Id, kind: S.Kind) returns (shown: Option<Id>)
      requires S.OneDisplay(pending)
      ensures shown.Some? <==> S.AnyShows(pending, device, kind)
      ensures shown.Some? ==> shown.value in pending && S.Shows(pending[shown.value], device, kind)
      ensures forall other :: other in pending && S.Shows(pending[other], device, kind) ==> shown == Some(other)
    {
      var ids := pending.Keys;
      while ids != {}
        invariant ids <= pending.Keys
        invariant forall other :: other in pending && other !in ids ==> !S.Shows(pending[other], device, kind)
      {
        var id :| id in ids;
        if S.Shows(pending[id], device, kind) {
          return Some(id);
        }
        ids := ids - {id};
      }
      return None;
    }

    method Admit(device: Id, c: S.Call)
      modifies this`pending, this`calls, this`history
      ensures View() == S.Admit(old(View()), device, c)
    {
      pending := pending[c.id := S.Entry(S.Request(c.id, device, c.kind, c.code, c.service, c.entered), calls)];
      history := history.(minted := history.minted + {c.id});
      if S.Delayed(c.kind) {
        calls := calls + 1;
      } else {
        ReplyNow(S.Returned);
      }
    }

    /** Release and Cancel. */
    method Cancel(caller: string) returns (ghost order: seq<Id>)
      modifies this`pending, this`calls, this`history
      ensures S.Enumerates(order, old(pending).Keys)
      ensures View() == S.CancelAll(old(View()), caller, order)
    {
      var ok := Authorized(caller);
      if ok {
        order := Clear();
        ReplyNow(S.Returned);
      } else {
        order := S.EveryHashHasAnOrder(pending.Keys);
      }
    }
  }
}
