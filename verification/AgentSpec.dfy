/**
 The pairing agent of BlueZAgent.cpp as functions on its state: interactions pending an answer from the user, each
 holding the D-Bus call that waits for it.

 History: `calls` numbers the agent calls received, `replies` lists what was sent back, `minted` holds the interaction
 identifiers drawn, and `canceled` lists the ones announced as over.
 */
module AgentSpec {
  import opened Numerals
  import opened Prelude
  import opened TextSizes

  datatype Kind =
    | PinEntry | PinDisplay | PasskeyEntry | PasskeyDisplay | Confirmation | PairingAuthorization | ServiceAuthorization

  datatype Request = Request(id: Id, device: Id, kind: Kind, code: string, service: string, entered: nat)

  datatype Entry = Entry(request: Request, call: nat)

  datatype Arguments = NoArguments | Pin(text: string) | Passkey(number: nat)

  datatype Answer = Rejected | Returned | Accepted(arguments: Arguments)

  datatype Reply = Reply(call: nat, answer: Answer)

  datatype Agent = Agent(
    owner: string, devices: map<string, Id>, pending: map<Id, Entry>,
    calls: nat, replies: seq<Reply>, minted: set<Id>, canceled: seq<Id>)

  function Initial(): Agent {
    Agent("", map[], map[], 0, [], {}, [])
  }

  /** Display interactions return at once; the others keep their D-Bus call waiting. */
  predicate Delayed(k: Kind) {
    k != PinDisplay && k != PasskeyDisplay
  }

  const MAXIMUM_PIN_LENGTH := 16
  const MAXIMUM_PASSKEY_DIGITS := 6
  const LINE_FEED := '\n'

  predicate ValidPin(input: string) {
    input != "" && Utf16Size(input) <= MAXIMUM_PIN_LENGTH && '\0' !in input
  }

  /** What the pattern reads: `$` also matches in front of a final line feed, which toUInt then ignores. */
  function PasskeyText(input: string): string {
    if input != "" && input[|input| - 1] == LINE_FEED then input[..|input| - 1] else input
  }

  predicate ValidPasskey(input: string) {
    1 <= |PasskeyText(input)| <= MAXIMUM_PASSKEY_DIGITS && IsDigits(PasskeyText(input))
  }

  /** What a passkey may look like: one to six digits, with or without a line feed behind them. */
  lemma PasskeyExactly(input: string)
    ensures ValidPasskey(input) <==>
            || (1 <= |input| <= MAXIMUM_PASSKEY_DIGITS && IsDigits(input))
            || (2 <= |input| <= MAXIMUM_PASSKEY_DIGITS + 1 && input[|input| - 1] == LINE_FEED && IsDigits(input[..|input| - 1]))
  {}

  /** So an input that is not all digits can be accepted. */
  lemma LineFeedIsAccepted()
    ensures var input := "1" + [LINE_FEED];
            ValidPasskey(input) && !IsDigits(input) && ArgumentsFor(PasskeyEntry, true, input) == Some(Passkey(1))
  {
    var input := "1" + [LINE_FEED];
    assert input[1] == LINE_FEED && input[..1] == "1" && "1"[..0] == "";
    assert NumberOf("1") == 1;
  }

  /** The arguments of the answer, or None when an acceptance lacks valid input. */
  function ArgumentsFor(k: Kind, accept: bool, input: string): Option<Arguments> {
    if accept && k == PinEntry then if ValidPin(input) then Some(Pin(input)) else None
    else if accept && k == PasskeyEntry then
      if ValidPasskey(input) then Some(Passkey(NumberOf(PasskeyText(input)))) else None
    else Some(NoArguments)
  }

  /** QString::arg with a width of six and zeros to fill it: how a passkey is shown. */
  function PasskeyCode(number: nat): string {
    var digits := Decimal(number);
    if |digits| < MAXIMUM_PASSKEY_DIGITS then Zeros(MAXIMUM_PASSKEY_DIGITS - |digits|) + digits else digits
  }

  /** Typing the decimal text of a number, with zeros in front and a line feed behind or not, sends that number. */
  lemma PasskeyIsSent(zeros: nat, number: nat, lineFeed: bool)
    requires zeros + |Decimal(number)| <= 6
    ensures ArgumentsFor(PasskeyEntry, true, Zeros(zeros) + Decimal(number) + (if lineFeed then "\U{000A}" else "")) ==
            Some(Passkey(number))
  {
    hide Decimal, Zeros;
    var text := Zeros(zeros) + Decimal(number);
    DecimalIsReadBack(zeros, number);
    assert text + "" == text && (text + "\U{000A}")[..|text|] == text;
  }

  /** And nothing else is accepted: what is sent is a number below a million whose decimal text was typed. */
  lemma PasskeyWasTyped(input: string) returns (zeros: nat, number: nat, lineFeed: bool)
    requires ArgumentsFor(PasskeyEntry, true, input).Some?
    ensures input == Zeros(zeros) + Decimal(number) + (if lineFeed then "\U{000A}" else "")
    ensures 1 <= zeros + |Decimal(number)| <= 6 && number < 1_000_000
    ensures ArgumentsFor(PasskeyEntry, true, input) == Some(Passkey(number))
  {
    hide Decimal;
    var text := PasskeyText(input);
    number, lineFeed := NumberOf(text), text != input;
    zeros := DigitsAreDecimal(text);
    NumberBounded(text);
    TenToTheBounded(|text|);
    assert !lineFeed ==> text + "" == text;
  }

  lemma {:induction false} TenToTheBounded(n: nat)
    requires n <= 6
    ensures TenToThe(n) <= 1_000_000
  {
    assert TenToThe(1) == 10 && TenToThe(2) == 100 && TenToThe(3) == 1000;
    assert TenToThe(4) == 10_000 && TenToThe(5) == 100_000 && TenToThe(6) == 1_000_000;
  }

  /** A passkey that is shown and typed on the other side is sent as the very number it was. */
  lemma ShownPasskeyIsSent(number: nat)
    requires number < 1_000_000
    ensures |PasskeyCode(number)| == 6 && IsDigits(PasskeyCode(number))
    ensures ArgumentsFor(PasskeyEntry, true, PasskeyCode(number)) == Some(Passkey(number))
  {
    hide Decimal;
    var zeros := 6 - |Decimal(number)|;
    AtMostSixDigits(number);
    DecimalIsReadBack(zeros, number);
    PasskeyIsSent(zeros, number, false);
    assert Zeros(0) + Decimal(number) == Decimal(number);
    assert PasskeyCode(number) + "" == PasskeyCode(number);
  }

  lemma {:induction false} AtMostSixDigits(number: nat)
    requires number < 1_000_000
    ensures |Decimal(number)| <= 6
  {
    assert |Decimal(number / 100_000)| == 1;
    assert |Decimal(number / 10_000)| <= 2 && |Decimal(number / 1000)| <= 3;
    assert |Decimal(number / 100)| <= 4 && |Decimal(number / 10)| <= 5;
  }

  // ---------------------------------------------------------------- the operations

  function Respond(a: Agent, id: Id, accept: bool, input: string): Agent {
    if id !in a.pending then a
    else
      var p := a.pending[id];
      match ArgumentsFor(p.request.kind, accept, input)
      case None => a
      case Some(arguments) =>
        a.(pending := a.pending - {id}, canceled := a.canceled + [id],
           replies := if Delayed(p.request.kind) then a.replies + [Reply(p.call, if accept then Accepted(arguments) else Rejected)]
                      else a.replies)
  }

  /** respond(id, false) for each identifier in turn. */
  function DismissAll(a: Agent, ids: seq<Id>): Agent {
    if ids == [] then a else Respond(DismissAll(a, ids[..|ids| - 1]), ids[|ids| - 1], false, "")
  }

  /** As DismissAll, but only where the entry names no known device. */
  function DismissUnknown(a: Agent, ids: seq<Id>): Agent {
    if ids == [] then a
    else
      var a' := DismissUnknown(a, ids[..|ids| - 1]);
      var id := ids[|ids| - 1];
      if id in a.pending && a.pending[id].request.device !in a.devices.Values then Respond(a', id, false, "") else a'
  }

  /** A hash is traversed in some order of its keys. */
  ghost predicate Enumerates(order: seq<Id>, keys: set<Id>) {
    Distinct(order) && forall id :: id in order <==> id in keys
  }

  lemma EveryHashHasAnOrder(keys: set<Id>) returns (order: seq<Id>)
    ensures Enumerates(order, keys)
  {
    if keys == {} {
      order := [];
    } else {
      var id :| id in keys;
      var rest := EveryHashHasAnOrder(keys - {id});
      order := rest + [id];
    }
  }

  function SetOwner(a: Agent, owner: string, order: seq<Id>): Agent {
    DismissAll(a, order).(owner := owner)
  }

  function SetDevices(a: Agent, devices: map<string, Id>, order: seq<Id>): Agent {
    DismissUnknown(a.(devices := devices), order)
  }

  predicate Authorized(a: Agent, caller: string) {
    a.owner != "" && caller == a.owner
  }

  function DeviceAt(devices: map<string, Id>, path: string): Id {
    if path in devices then devices[path] else ""
  }

  /** The next call arrives and is answered on the spot. */
  function ReplyNow(a: Agent, answer: Answer): Agent {
    a.(calls := a.calls + 1, replies := a.replies + [Reply(a.calls, answer)])
  }

  /** An unknown device is looked up through the resolver and remembered. */
  function Resolve(a: Agent, path: string, resolved: Id): Agent {
    if DeviceAt(a.devices, path) == "" && resolved != "" then
      a.(devices := a.devices[path := resolved])
    else a
  }

  predicate Shows(p: Entry, device: Id, kind: Kind) {
    !Delayed(p.request.kind) && p.request.device == device && p.request.kind == kind
  }

  ghost predicate AnyShows(pending: map<Id, Entry>, device: Id, kind: Kind) {
    exists id :: id in pending && Shows(pending[id], device, kind)
  }

  function Update(p: Entry, code: string, entered: nat): Entry {
    p.(request := p.request.(code := code, entered := entered))
  }

  /** The arguments of an agent call as the backend sees them; `id` is drawn for a new interaction. */
  datatype Call = Call(path: string, kind: Kind, code: string, service: string, entered: nat, resolved: Id, id: Id)

  ghost function Ask(a: Agent, caller: string, c: Call): Agent {
    if !Authorized(a, caller) then ReplyNow(a, Rejected)
    else
      var a' := Resolve(a, c.path, c.resolved);
      var device := DeviceAt(a'.devices, c.path);
      if device == "" then ReplyNow(a', Rejected)
      else if AnyShows(a'.pending, device, c.kind) then
        var shown :| shown in a'.pending && Shows(a'.pending[shown], device, c.kind);
        ReplyNow(a'.(pending := a'.pending[shown := Update(a'.pending[shown], c.code, c.entered)]), Returned)
      else Admit(a', device, c)
  }

  function Admit(a: Agent, device: Id, c: Call): Agent {
    var entry := Entry(Request(c.id, device, c.kind, c.code, c.service, c.entered), a.calls);
    var a' := if Delayed(c.kind) then a.(calls := a.calls + 1) else ReplyNow(a, Returned);
    a'.(pending := a.pending[c.id := entry], minted := a.minted + {c.id})
  }

  /** Release and Cancel. */
  function CancelAll(a: Agent, caller: string, order: seq<Id>): Agent {
    if !Authorized(a, caller) then ReplyNow(a, Rejected) else ReplyNow(DismissAll(a, order), Returned)
  }

  // ---------------------------------------------------------------- runs

  /** A timeout is a refusal by the backend itself: Responds(id, false, ""). Clears is the backend's own clear(). */
  datatype Event =
    | OwnerChanges(owner: string, order: seq<Id>)
    | DevicesChange(devices: map<string, Id>, order: seq<Id>)
    | Asks(caller: string, call: Call)
    | Cancels(caller: string, order: seq<Id>)
    | Clears(order: seq<Id>)
    | Responds(id: Id, accept: bool, input: string)

  ghost predicate Enabled(a: Agent, e: Event) {
    match e
    case OwnerChanges(_, order) => Enumerates(order, a.pending.Keys)
    case DevicesChange(_, order) => Enumerates(order, a.pending.Keys)
    case Asks(_, call) => call.id !in a.minted
    case Cancels(_, order) => Enumerates(order, a.pending.Keys)
    case Clears(order) => Enumerates(order, a.pending.Keys)
    case Responds(_, _, _) => true
  }

  ghost function Step(a: Agent, e: Event): Agent {
    if !Enabled(a, e) then a
    else
      match e
      case OwnerChanges(owner, order) => SetOwner(a, owner, order)
      case DevicesChange(devices, order) => SetDevices(a, devices, order)
      case Asks(caller, call) => Ask(a, caller, call)
      case Cancels(caller, order) => CancelAll(a, caller, order)
      case Clears(order) => DismissAll(a, order)
      case Responds(id, accept, input) => Respond(a, id, accept, input)
  }

  ghost function Run(events: seq<Event>): Agent {
    if events == [] then Initial()
    else Step(Run(events[..|events| - 1]), events[|events| - 1])
  }

  // ---------------------------------------------------------------- what every step keeps

  ghost predicate Waiting(pending: map<Id, Entry>, call: nat) {
    exists id :: id in pending && Delayed(pending[id].request.kind) && pending[id].call == call
  }

  /** How often each call was answered. */
  function Answered(replies: seq<Reply>): multiset<nat> {
    if replies == [] then multiset{} else Answered(replies[..|replies| - 1]) + multiset{replies[|replies| - 1].call}
  }

  /** Each call received is either waiting in one entry or was answered exactly once. */
  ghost predicate CallsConserved(pending: map<Id, Entry>, calls: nat, answered: multiset<nat>) {
    && (forall n: nat :: answered[n] == if n < calls && !Waiting(pending, n) then 1 else 0)
    && (forall id :: id in pending ==> pending[id].call < calls)
    && (forall i, j :: i in pending && j in pending && pending[i].call == pending[j].call ==> i == j)
  }

  /** Each interaction drawn is either pending or was announced as over exactly once. */
  ghost predicate InteractionsConserved(pending: map<Id, Entry>, minted: set<Id>, over: multiset<Id>) {
    && pending.Keys <= minted
    && (forall id :: id in pending ==> pending[id].request.id == id)
    && (forall id :: over[id] == if id in minted && id !in pending then 1 else 0)
  }

  ghost predicate KnownDevices(pending: map<Id, Entry>, devices: map<string, Id>) {
    forall id :: id in pending ==> pending[id].request.device != "" && pending[id].request.device in devices.Values
  }

  ghost predicate OneDisplay(pending: map<Id, Entry>) {
    forall i, j :: i in pending && j in pending && Shows(pending[j], pending[i].request.device, pending[i].request.kind) ==> i == j
  }

  ghost predicate Invariant(a: Agent) {
    && CallsConserved(a.pending, a.calls, Answered(a.replies))
    && InteractionsConserved(a.pending, a.minted, multiset(a.canceled))
    && KnownDevices(a.pending, a.devices)
    && OneDisplay(a.pending)
    && (a.owner == "" ==> a.pending == map[])
  }

  lemma AnsweredOneMore(replies: seq<Reply>, r: Reply)
    ensures Answered(replies + [r]) == Answered(replies) + multiset{r.call}
  {
    assert (replies + [r])[..|replies|] == replies;
  }

  /** Without the clauses about devices and owner, which some steps restore only at their end. */
  ghost predicate Conserved(a: Agent) {
    && CallsConserved(a.pending, a.calls, Answered(a.replies))
    && InteractionsConserved(a.pending, a.minted, multiset(a.canceled))
    && OneDisplay(a.pending)
  }

  lemma RespondConserves(a: Agent, id: Id, accept: bool, input: string)
    requires Conserved(a)
    ensures Conserved(Respond(a, id, accept, input))
    ensures KnownDevices(a.pending, a.devices) ==> KnownDevices(Respond(a, id, accept, input).pending, a.devices)
  {
    hide ArgumentsFor, CallsConserved, InteractionsConserved, OneDisplay, KnownDevices, Shows, Waiting, Delayed;
    if id in a.pending {
      assert OneDisplay(a.pending - {id}) && (KnownDevices(a.pending, a.devices) ==> KnownDevices(a.pending - {id}, a.devices)) by {
        FewerKeepOrder(a.pending, a.devices, id);
      }
      var p := a.pending[id];
      match ArgumentsFor(p.request.kind, accept, input)
      case None =>
      case Some(arguments) =>
        if Delayed(p.request.kind) {
          AnsweredOneMore(a.replies, Reply(p.call, if accept then Accepted(arguments) else Rejected));
        }
        LeaveConservesCalls(a.pending, a.calls, Answered(a.replies), id);
        LeaveConservesInteractions(a.pending, a.minted, a.canceled, id);
    }
  }

  lemma FewerKeepOrder(pending: map<Id, Entry>, devices: map<string, Id>, id: Id)
    requires OneDisplay(pending)
    ensures OneDisplay(pending - {id})
    ensures KnownDevices(pending, devices) ==> KnownDevices(pending - {id}, devices)
  {}

  lemma LeaveConservesCalls(pending: map<Id, Entry>, calls: nat, answered: multiset<nat>, id: Id)
    requires CallsConserved(pending, calls, answered) && id in pending
    ensures CallsConserved(pending - {id}, calls,
                           if Delayed(pending[id].request.kind) then answered + multiset{pending[id].call} else answered)
  {
    var p, rest := pending[id], pending - {id};
    forall n: nat ensures Waiting(rest, n) <==> Waiting(pending, n) && !(Delayed(p.request.kind) && n == p.call) {
      if Waiting(pending, n) {
        var k :| k in pending && Delayed(pending[k].request.kind) && pending[k].call == n;
        assert k != id ==> k in rest;
      }
    }
    assert Delayed(p.request.kind) ==> Waiting(pending, p.call);
  }

  lemma LeaveConservesInteractions(pending: map<Id, Entry>, minted: set<Id>, canceled: seq<Id>, id: Id)
    requires InteractionsConserved(pending, minted, multiset(canceled)) && id in pending
    ensures InteractionsConserved(pending - {id}, minted, multiset(canceled + [id]))
  {
    assert multiset(canceled + [id]) == multiset(canceled) + multiset{id};
  }

  lemma {:induction false} DismissConserves(a: Agent, ids: seq<Id>)
    requires Conserved(a)
    ensures var b := DismissAll(a, ids);
            && Conserved(b) && b.pending == a.pending - (set id | id in ids)
            && b.devices == a.devices && b.owner == a.owner && b.calls == a.calls && b.minted == a.minted
  {
    hide Conserved;
    if ids != [] {
      var n := |ids| - 1;
      DismissConserves(a, ids[..n]);
      RespondConserves(DismissAll(a, ids[..n]), ids[n], false, "");
      assert ids == ids[..n] + [ids[n]];
    }
  }

  lemma {:induction false} DismissUnknownConserves(a: Agent, ids: seq<Id>)
    requires Conserved(a)
    ensures var b := DismissUnknown(a, ids);
            && Conserved(b)
            && b.pending == a.pending - (set id | id in ids && id in a.pending && a.pending[id].request.device !in a.devices.Values)
            && b.devices == a.devices && b.owner == a.owner && b.calls == a.calls && b.minted == a.minted
  {
    hide Conserved;
    if ids != [] {
      var n := |ids| - 1;
      DismissUnknownConserves(a, ids[..n]);
      RespondConserves(DismissUnknown(a, ids[..n]), ids[n], false, "");
      assert ids == ids[..n] + [ids[n]];
    }
  }

  lemma ClearEmpties(a: Agent, order: seq<Id>)
    requires Conserved(a) && Enumerates(order, a.pending.Keys)
    ensures DismissAll(a, order).pending == map[] && Conserved(DismissAll(a, order))
  {
    DismissConserves(a, order);
  }

  lemma SetDevicesKeeps(a: Agent, devices: map<string, Id>, order: seq<Id>)
    requires Invariant(a) && Enumerates(order, a.pending.Keys)
    ensures Invariant(SetDevices(a, devices, order))
  {
    var a' := a.(devices := devices);
    DismissUnknownConserves(a', order);
  }

  lemma ReplyNowConserves(a: Agent, answer: Answer)
    requires Conserved(a)
    ensures Conserved(ReplyNow(a, answer))
  {
    AnsweredOneMore(a.replies, Reply(a.calls, answer));
    forall n: nat ensures n >= a.calls ==> !Waiting(a.pending, n) {}
  }

  lemma ResolveKeeps(a: Agent, path: string, resolved: Id)
    requires Invariant(a)
    ensures var b := Resolve(a, path, resolved);
            && Invariant(b) && b.pending == a.pending && b.minted == a.minted && b.calls == a.calls && b.owner == a.owner
            && (DeviceAt(b.devices, path) != "" ==> DeviceAt(b.devices, path) in b.devices.Values)
  {
    hide CallsConserved, InteractionsConserved, OneDisplay;
    var b := Resolve(a, path, resolved);
    if b != a {
      forall id | id in a.pending ensures a.pending[id].request.device in b.devices.Values {
        var p :| p in a.devices && a.devices[p] == a.pending[id].request.device;
        assert p != path && p in b.devices;
      }
    }
    if path in b.devices { assert b.devices[path] in b.devices.Values; }
  }

  lemma UpdateConserves(a: Agent, shown: Id, code: string, entered: nat)
    requires Conserved(a) && shown in a.pending
    ensures Conserved(a.(pending := a.pending[shown := Update(a.pending[shown], code, entered)]))
  {
    var pending' := a.pending[shown := Update(a.pending[shown], code, entered)];
    forall n ensures Waiting(pending', n) <==> Waiting(a.pending, n) {
      if Waiting(a.pending, n) {
        var k :| k in a.pending && Delayed(a.pending[k].request.kind) && a.pending[k].call == n;
        assert k in pending' && Delayed(pending'[k].request.kind) && pending'[k].call == n;
      }
    }
  }

  lemma AdmitConserves(a: Agent, device: Id, c: Call)
    requires Conserved(a) && c.id !in a.minted && !AnyShows(a.pending, device, c.kind)
    ensures Conserved(Admit(a, device, c))
  {
    AdmitConservesCalls(a, device, c);
    var b := Admit(a, device, c);
    assert OneDisplay(b.pending) by { hide CallsConserved, InteractionsConserved; }
  }

  lemma AdmitConservesCalls(a: Agent, device: Id, c: Call)
    requires CallsConserved(a.pending, a.calls, Answered(a.replies)) && InteractionsConserved(a.pending, a.minted, multiset(a.canceled))
    requires c.id !in a.minted
    ensures var b := Admit(a, device, c);
            CallsConserved(b.pending, b.calls, Answered(b.replies)) && InteractionsConserved(b.pending, b.minted, multiset(b.canceled))
  {
    var b := Admit(a, device, c);
    if !Delayed(c.kind) {
      AnsweredOneMore(a.replies, Reply(a.calls, Returned));
    }
    assert c.id !in a.pending;
    forall n ensures Waiting(b.pending, n) <==> Waiting(a.pending, n) || (Delayed(c.kind) && n == a.calls) {
      if Waiting(a.pending, n) {
        var k :| k in a.pending && Delayed(a.pending[k].request.kind) && a.pending[k].call == n;
        assert k in b.pending && b.pending[k] == a.pending[k];
      }
      if Delayed(c.kind) && n == a.calls {
        assert c.id in b.pending;
      }
    }
  }

  lemma AskKeeps(a: Agent, caller: string, c: Call)
    requires Invariant(a) && c.id !in a.minted
    ensures Invariant(Ask(a, caller, c))
  {
    hide CallsConserved, InteractionsConserved, OneDisplay, ReplyNow;
    KnownAfterReply(a, Rejected);
    if Authorized(a, caller) {
      var a' := Resolve(a, c.path, c.resolved);
      ResolveKeeps(a, c.path, c.resolved);
      KnownAfterReply(a', Rejected);
      var device := DeviceAt(a'.devices, c.path);
      if device != "" {
        if AnyShows(a'.pending, device, c.kind) {
          var shown :| shown in a'.pending && Shows(a'.pending[shown], device, c.kind)
            && Ask(a, caller, c) == ReplyNow(a'.(pending := a'.pending[shown := Update(a'.pending[shown], c.code, c.entered)]), Returned);
          UpdateConserves(a', shown, c.code, c.entered);
          KnownAfterReply(a'.(pending := a'.pending[shown := Update(a'.pending[shown], c.code, c.entered)]), Returned);
        } else {
          AdmitKeeps(a', device, c);
        }
      }
    }
  }

  lemma KnownAfterReply(a: Agent, answer: Answer)
    requires Invariant(a)
    ensures Invariant(ReplyNow(a, answer))
  {
    ReplyNowConserves(a, answer);
  }

  lemma AdmitKeeps(a: Agent, device: Id, c: Call)
    requires Invariant(a) && c.id !in a.minted && !AnyShows(a.pending, device, c.kind)
    requires device != "" && device in a.devices.Values && a.owner != ""
    ensures Invariant(Admit(a, device, c))
  {
    AdmitConserves(a, device, c);
    hide CallsConserved, InteractionsConserved, OneDisplay;
  }

  lemma StepKeeps(a: Agent, e: Event)
    requires Invariant(a)
    ensures Invariant(Step(a, e))
  {
    hide CallsConserved, InteractionsConserved, OneDisplay, SetDevices, Ask, Respond;
    if Enabled(a, e) {
      match e {
        case OwnerChanges(owner, order) => ClearEmpties(a, order);
        case DevicesChange(devices, order) => SetDevicesKeeps(a, devices, order);
        case Asks(caller, call) => AskKeeps(a, caller, call);
        case Cancels(caller, order) =>
          KnownAfterReply(a, Rejected);
          ClearEmpties(a, order);
          KnownAfterReply(DismissAll(a, order), Returned);
        case Clears(order) => ClearEmpties(a, order);
        case Responds(id, accept, input) => RespondKeeps(a, id, accept, input);
      }
    }
  }

  lemma RespondKeeps(a: Agent, id: Id, accept: bool, input: string)
    requires Invariant(a)
    ensures Invariant(Respond(a, id, accept, input))
  {
    hide CallsConserved, InteractionsConserved, OneDisplay;
    RespondConserves(a, id, accept, input);
  }

  lemma {:induction false} EveryRunKeepsInvariant(events: seq<Event>)
    ensures Invariant(Run(events))
  {
    if events != [] {
      EveryRunKeepsInvariant(events[..|events| - 1]);
      StepKeeps(Run(events[..|events| - 1]), events[|events| - 1]);
    }
  }

  // ---------------------------------------------------------------- what runs guarantee

  /** Every call received is waiting in exactly one pending entry or was answered, and never more than once. */
  lemma CallsAreAnsweredOnce(events: seq<Event>, call: nat)
    ensures var a := Run(events);
            && (call < a.calls ==> (Waiting(a.pending, call) <==> Answered(a.replies)[call] == 0))
            && Answered(a.replies)[call] <= 1
            && (call >= a.calls ==> Answered(a.replies)[call] == 0)
            && forall i, j :: i in a.pending && j in a.pending && a.pending[i].call == call == a.pending[j].call ==> i == j
  {
    EveryRunKeepsInvariant(events);
  }

  /** Every interaction is pending until it is announced as over, which happens once. */
  lemma InteractionsEndOnce(events: seq<Event>, id: Id)
    requires id in Run(events).minted
    ensures var a := Run(events); multiset(a.canceled)[id] == if id in a.pending then 0 else 1
  {
    EveryRunKeepsInvariant(events);
  }

  /** What an acceptance has to carry: a PIN of 1 to 16 units without a null, or up to six digits and maybe a line feed. */
  ghost predicate Acceptable(kind: Kind, input: string) {
    && (kind == PinEntry ==> input != "" && Utf16Size(input) <= 16 && '\0' !in input)
    && (kind == PasskeyEntry ==>
          exists zeros, number, lineFeed :: IsPasskey(input, zeros, number, lineFeed))
  }

  ghost predicate IsPasskey(input: string, zeros: nat, number: nat, lineFeed: bool) {
    zeros + |Decimal(number)| <= 6 && input == Zeros(zeros) + Decimal(number) + (if lineFeed then "\U{000A}" else "")
  }

  /** The answer to a call of this kind: what was typed, as text for a PIN and as a number for a passkey. */
  ghost predicate Answers(answer: Answer, kind: Kind, accept: bool, input: string) {
    if !accept then answer == Rejected
    else
      && answer.Accepted?
      && (kind == PinEntry ==> answer.arguments == Pin(input))
      && (kind == PasskeyEntry ==>
            exists zeros, number, lineFeed :: IsPasskey(input, zeros, number, lineFeed) && answer.arguments == Passkey(number))
      && (kind !in {PinEntry, PasskeyEntry} ==> answer.arguments == NoArguments)
  }

  /**
   An answer makes its entry leave exactly when it is acceptable; then the waiting call is sent that answer, and nothing
   else happens. An acceptance without valid input changes nothing. The calls behind a display were answered at once.
   */
  lemma AnswerLeavesExactlyWhenValid(a: Agent, id: Id, accept: bool, input: string)
    requires id in a.pending
    ensures var p := a.pending[id];
            var b := Respond(a, id, accept, input);
            && (id in b.pending <==> accept && !Acceptable(p.request.kind, input))
            && (id in b.pending ==> b == a)
            && (id !in b.pending ==>
                  && b == a.(pending := a.pending - {id}, canceled := a.canceled + [id], replies := b.replies)
                  && (if p.request.kind in {PinDisplay, PasskeyDisplay} then b.replies == a.replies
                      else
                        && |b.replies| == |a.replies| + 1 && b.replies[..|a.replies|] == a.replies
                        && b.replies[|a.replies|].call == p.call
                        && Answers(b.replies[|a.replies|].answer, p.request.kind, accept, input)))
  {
    hide Decimal, Zeros, ValidPasskey, PasskeyText;
    if accept && a.pending[id].request.kind == PasskeyEntry {
      if ArgumentsFor(PasskeyEntry, true, input).Some? {
        var zeros, number, lineFeed := PasskeyWasTyped(input);
        assert IsPasskey(input, zeros, number, lineFeed);
      }
      forall zeros, number, lineFeed | IsPasskey(input, zeros, number, lineFeed) ensures ValidPasskey(input) {
        PasskeyIsSent(zeros, number, lineFeed);
      }
    }
  }

  /** The device an agent call is about: as told, or as resolved on the spot. */
  function DeviceOf(a: Agent, c: Call): Id {
    if c.path in a.devices && a.devices[c.path] != "" then a.devices[c.path] else c.resolved
  }

  /** An entry that shows the call's code already, for a call that only shows something. */
  ghost predicate Showing(a: Agent, shown: Id, c: Call) {
    && c.kind in {PinDisplay, PasskeyDisplay}
    && shown in a.pending && a.pending[shown].request.kind == c.kind && a.pending[shown].request.device == DeviceOf(a, c)
  }

  /** The call is answered at once and nothing new is pending. */
  predicate RepliedNow(a: Agent, b: Agent, answer: Answer) {
    b.calls == a.calls + 1 && b.replies == a.replies + [Reply(a.calls, answer)] && b.minted == a.minted && b.canceled == a.canceled
  }

  /**
   What becomes of an agent call: refused unless it is the owner's and about a device with an ID; shown in the one
   entry that shows such a code already; or else pending under a new identifier, with its call waiting unless it only
   shows something. The user is asked about exactly what the call said.
   */
  lemma AskExactly(a: Agent, caller: string, c: Call)
    requires Invariant(a) && c.id !in a.minted
    ensures var b := Ask(a, caller, c);
            if a.owner == "" || caller != a.owner then
              b.pending == a.pending && b.devices == a.devices && RepliedNow(a, b, Rejected)
            else
              && b.devices == (if DeviceOf(a, c) == "" then a.devices else a.devices[c.path := DeviceOf(a, c)])
              && if DeviceOf(a, c) == "" then b.pending == a.pending && RepliedNow(a, b, Rejected)
                 else if exists shown :: Showing(a, shown, c) then
                   && RepliedNow(a, b, Returned)
                   && forall shown :: Showing(a, shown, c) ==>
                        b.pending == a.pending[shown := Entry(a.pending[shown].request.(code := c.code, entered := c.entered),
                                                              a.pending[shown].call)]
                 else
                   && b.pending == a.pending[c.id := Entry(Request(c.id, DeviceOf(a, c), c.kind, c.code, c.service, c.entered), a.calls)]
                   && b.minted == a.minted + {c.id} && b.canceled == a.canceled && b.calls == a.calls + 1
                   && b.replies == a.replies + if c.kind in {PinDisplay, PasskeyDisplay} then [Reply(a.calls, Returned)] else []
  {
    hide CallsConserved, InteractionsConserved, KnownDevices;
    var device := DeviceOf(a, c);
    var a' := Resolve(a, c.path, c.resolved);
    assert device == DeviceAt(a'.devices, c.path);
    assert Authorized(a, caller) && device != "" ==> a'.devices == a.devices[c.path := device];
    forall shown ensures Showing(a, shown, c) <==> shown in a'.pending && Shows(a'.pending[shown], device, c.kind) {}
    forall i, j | Showing(a, i, c) && Showing(a, j, c) ensures i == j {
      assert Shows(a.pending[j], a.pending[i].request.device, a.pending[i].request.kind);
    }
  }

  /** What follows `before` are refusals only, each of a call that waited in an entry and not merely of a display. */
  ghost predicate OnlyRefuses(before: seq<Reply>, after: seq<Reply>, pending: map<Id, Entry>) {
    && before <= after
    && forall k :: |before| <= k < |after| ==>
         && after[k].answer == Rejected
         && exists id :: id in pending && pending[id].call == after[k].call && pending[id].request.kind !in {PinDisplay, PasskeyDisplay}
  }

  lemma RefusalRefuses(a: Agent, before: seq<Reply>, pending: map<Id, Entry>, id: Id)
    requires OnlyRefuses(before, a.replies, pending) && forall x :: x in a.pending ==> x in pending && a.pending[x] == pending[x]
    ensures var b := Respond(a, id, false, "");
            && OnlyRefuses(before, b.replies, pending)
            && (forall x :: x in b.pending ==> x in pending && b.pending[x] == pending[x])
            && b.owner == a.owner && b.devices == a.devices && b.calls == a.calls
  {}

  lemma {:induction false} DismissalsRefuse(a: Agent, ids: seq<Id>)
    ensures var b := DismissAll(a, ids);
            && OnlyRefuses(a.replies, b.replies, a.pending) && (forall x :: x in b.pending ==> x in a.pending && b.pending[x] == a.pending[x])
            && b.owner == a.owner && b.devices == a.devices && b.calls == a.calls
    ensures var b := DismissUnknown(a, ids);
            && OnlyRefuses(a.replies, b.replies, a.pending) && (forall x :: x in b.pending ==> x in a.pending && b.pending[x] == a.pending[x])
            && b.owner == a.owner && b.devices == a.devices && b.calls == a.calls
  {
    hide Respond, OnlyRefuses;
    if ids == [] {
      NothingRefused(a.replies, a.pending);
    } else {
      var n := |ids| - 1;
      DismissalsRefuse(a, ids[..n]);
      RefusalRefuses(DismissAll(a, ids[..n]), a.replies, a.pending, ids[n]);
      RefusalRefuses(DismissUnknown(a, ids[..n]), a.replies, a.pending, ids[n]);
    }
  }

  lemma NothingRefused(replies: seq<Reply>, pending: map<Id, Entry>)
    ensures OnlyRefuses(replies, replies, pending)
  {}

  /** Release and Cancel by the owner end every interaction with a refusal and return; for anybody else they are refused. */
  lemma CancelExactly(events: seq<Event>, caller: string, order: seq<Id>)
    requires Enumerates(order, Run(events).pending.Keys)
    ensures var a, b := Run(events), CancelAll(Run(events), caller, order);
            && b.calls == a.calls + 1 && b.replies != []
            && var others, last := b.replies[..|b.replies| - 1], b.replies[|b.replies| - 1];
               if a.owner == "" || caller != a.owner then b.pending == a.pending && others == a.replies && last == Reply(a.calls, Rejected)
               else b.pending == map[] && OnlyRefuses(a.replies, others, a.pending) && last == Reply(a.calls, Returned)
  {
    EveryRunKeepsInvariant(events);
    var a := Run(events);
    DismissalsRefuse(a, order);
    ClearEmpties(a, order);
    hide Run, Invariant, DismissAll, OnlyRefuses;
  }

  /** A new owner finds nothing pending; what was is refused. */
  lemma OwnerChangeRefuses(events: seq<Event>, owner: string, order: seq<Id>)
    requires Enumerates(order, Run(events).pending.Keys)
    ensures var a, b := Run(events), SetOwner(Run(events), owner, order);
            b.owner == owner && b.pending == map[] && b.devices == a.devices && OnlyRefuses(a.replies, b.replies, a.pending)
  {
    EveryRunKeepsInvariant(events);
    var a := Run(events);
    DismissalsRefuse(a, order);
    ClearEmpties(a, order);
    hide Run, Invariant, DismissAll, OnlyRefuses;
  }

  /** After new devices arrive, what stays pending is exactly what names a known device. */
  lemma SetDevicesKeepsTheKnown(events: seq<Event>, devices: map<string, Id>, order: seq<Id>)
    requires Enumerates(order, Run(events).pending.Keys)
    ensures var a, b := Run(events), SetDevices(Run(events), devices, order);
            && (forall id :: id in b.pending <==> id in a.pending && a.pending[id].request.device in devices.Values)
            && (forall id :: id in b.pending ==> b.pending[id] == a.pending[id])
            && b.devices == devices && b.owner == a.owner && OnlyRefuses(a.replies, b.replies, a.pending)
  {
    EveryRunKeepsInvariant(events);
    DismissalsRefuse(Run(events).(devices := devices), order);
    DismissUnknownConserves(Run(events).(devices := devices), order);
  }

  /** Pending interactions always name known devices, and a display interaction never shows twice for a device. */
  lemma PendingIsKnownAndShownOnce(events: seq<Event>)
    ensures var a := Run(events);
            && (forall id :: id in a.pending ==> a.pending[id].request.device in a.devices.Values)
            && (forall i, j ::
                  (i in a.pending && j in a.pending && i != j
                   && a.pending[i].request.device == a.pending[j].request.device
                   && a.pending[i].request.kind == a.pending[j].request.kind) ==> Delayed(a.pending[i].request.kind))
  {
    EveryRunKeepsInvariant(events);
    var a := Run(events);
    forall i, j | i in a.pending && j in a.pending && i != j
                  && a.pending[i].request.device == a.pending[j].request.device
                  && a.pending[i].request.kind == a.pending[j].request.kind ensures Delayed(a.pending[i].request.kind) {
      assert !Shows(a.pending[j], a.pending[i].request.device, a.pending[i].request.kind);
    }
  }
}
