/** Which commands HyprlandBackend runs: what their texts mean, and that each one is about what was asked for. */
module HyprlandCommands {
  import opened HyprlandGuarantees
  import opened HyprlandSession
  import opened Numerals
  import opened Prelude
  import Ipc = SwayIpc

  // ---------------------------------------------------------------- what a command text means

  function After(prefix: string, text: string): Option<string> {
    if prefix <= text then Some(text[|prefix|..]) else None
  }

  function Between(prefix: string, text: string, suffix: string): Option<string> {
    if |prefix| + |suffix| <= |text| && prefix <= text && text[|text| - |suffix|..] == suffix
    then Some(text[|prefix|..|text| - |suffix|]) else None
  }

  function Quoted(prefix: string, text: string, suffix: string): Option<string> {
    if prefix <= text then
      match Ipc.ReadQuoted(text[|prefix|..])
      case Some((name, rest)) => if rest == suffix then Some(name) else None
      case None => None
    else None
  }

  /** Hyprland's reading of a command, by its dispatcher; None where it means nothing known. */
  function ReadText(text: string): Option<Command> {
    if text == "j/monitors" then Some(ListMonitors)
    else if text == "j/workspaces" then Some(ListWorkspaces)
    else if text == "j/clients" then Some(ListClients)
    else if After("dispatch workspace ", text).Some? then Some(FocusWorkspace(After("dispatch workspace ", text).value))
    else if After("dispatch togglespecialworkspace ", text).Some? then
      Some(ToggleSpecial(After("dispatch togglespecialworkspace ", text).value))
    else if After("dispatch focuswindow address:", text).Some? then
      Some(FocusAddress(After("dispatch focuswindow address:", text).value))
    else if Between("dispatch hl.dsp.focus({ workspace = ", text, " })").Some? then
      Some(LuaWorkspace(Between("dispatch hl.dsp.focus({ workspace = ", text, " })").value))
    else if Quoted("dispatch hl.dsp.workspace.toggle_special(\"", text, ")").Some? then
      Some(LuaSpecial(Quoted("dispatch hl.dsp.workspace.toggle_special(\"", text, ")").value))
    else if Quoted("dispatch hl.dsp.focus({ window = \"address:", text, " })").Some? then
      Some(LuaAddress(Quoted("dispatch hl.dsp.focus({ window = \"address:", text, " })").value))
    else None
  }

  /** Every command text is read back as the command it was made for: names and addresses cannot change its meaning. */
  lemma TextIsReadBack(c: Command)
    ensures ReadText(Text(c)) == Some(c)
  {
    hide ReadText, Text;
    match c
    case LuaWorkspace(id) => LuaWorkspaceIsReadBack(id);
    case LuaSpecial(name) => LuaSpecialIsReadBack(name);
    case LuaAddress(address) => LuaAddressIsReadBack(address);
    case _ => PlainTextIsReadBack(c);
  }

  lemma NoMatch(prefix: string, text: string, suffix: string, k: nat)
    requires k < |prefix| && k < |text| && text[k] != prefix[k]
    ensures After(prefix, text) == None && Between(prefix, text, suffix) == None && Quoted(prefix, text, suffix) == None
  {}

  lemma PlainTextIsReadBack(c: Command)
    requires !c.LuaWorkspace? && !c.LuaSpecial? && !c.LuaAddress?
    ensures ReadText(Text(c)) == Some(c)
  {
    hide Quoted, Between;
    assert c.FocusWorkspace? ==> Text(c)[9] == 'w';
    assert c.ToggleSpecial? ==> Text(c)[9] == 't';
    assert c.FocusAddress? ==> Text(c)[9] == 'f';
  }

  /** Texts of the Lua forms are none of the plain ones. */
  lemma LuaIsNotPlain(text: string)
    requires |text| > 9 && text[0] == 'd' && text[9] == 'h'
    ensures text !in {"j/monitors", "j/workspaces", "j/clients"}
    ensures After("dispatch workspace ", text) == None && After("dispatch togglespecialworkspace ", text) == None
    ensures After("dispatch focuswindow address:", text) == None
  {
    NoMatch("dispatch workspace ", text, "", 9);
    NoMatch("dispatch togglespecialworkspace ", text, "", 9);
    NoMatch("dispatch focuswindow address:", text, "", 9);
  }

  lemma LuaWorkspaceIsReadBack(id: string)
    ensures ReadText(Text(LuaWorkspace(id))) == Some(LuaWorkspace(id))
  {
    hide After, Quoted, Ipc.EscapeWorkspaceName;
    var prefix, text := "dispatch hl.dsp.focus({ workspace = ", Text(LuaWorkspace(id));
    assert text[9] == 'h' && text == prefix + (id + " })");
    assert text[|text| - 3..] == " })" && text[|prefix|..|text| - 3] == id;
    LuaIsNotPlain(text);
  }

  lemma QuotedIsRecovered(prefix: string, name: string, suffix: string)
    ensures var text := prefix + Ipc.EscapeWorkspaceName(name) + "\"" + suffix;
            Quoted(prefix, text, suffix) == Some(name) && |text| > |prefix| && forall k :: 0 <= k < |prefix| ==> text[k] == prefix[k]
  {
    hide Ipc.EscapeWorkspaceName, Ipc.ReadQuoted;
    Ipc.QuotedNameIsRecovered(name, suffix);
    var text := prefix + Ipc.EscapeWorkspaceName(name) + "\"" + suffix;
    assert text[|prefix|..] == Ipc.EscapeWorkspaceName(name) + "\"" + suffix;
  }

  lemma LuaSpecialIsReadBack(name: string)
    ensures ReadText(Text(LuaSpecial(name))) == Some(LuaSpecial(name))
  {
    hide Ipc.EscapeWorkspaceName, After, Between, Quoted;
    var prefix, text := "dispatch hl.dsp.workspace.toggle_special(\"", Text(LuaSpecial(name));
    QuotedIsRecovered(prefix, name, ")");
    assert text == prefix + Ipc.EscapeWorkspaceName(name) + "\"" + ")";
    assert text[0] == prefix[0] && text[9] == prefix[9] && text[16] == prefix[16];
    LuaIsNotPlain(text);
    NoMatch("dispatch hl.dsp.focus({ workspace = ", text, " })", 16);
  }

  lemma WindowIsNoWorkspace(text: string)
    requires |text| > 25 && text[16] == 'f' && text[25] == 'i'
    ensures Between("dispatch hl.dsp.focus({ workspace = ", text, " })") == None
    ensures Quoted("dispatch hl.dsp.workspace.toggle_special(\"", text, ")") == None
  {
    NoMatch("dispatch hl.dsp.focus({ workspace = ", text, " })", 25);
    NoMatch("dispatch hl.dsp.workspace.toggle_special(\"", text, ")", 16);
  }

  lemma LuaAddressIsReadBack(address: string)
    ensures ReadText(Text(LuaAddress(address))) == Some(LuaAddress(address))
  {
    hide Ipc.EscapeWorkspaceName, After, Between, Quoted;
    var prefix, text := "dispatch hl.dsp.focus({ window = \"address:", Text(LuaAddress(address));
    QuotedIsRecovered(prefix, address, " })");
    assert text == prefix + Ipc.EscapeWorkspaceName(address) + "\"" + " })";
    assert text[0] == prefix[0] && text[9] == prefix[9] && text[16] == prefix[16];
    LuaIsNotPlain(text);
    assert text[25] == prefix[25];
    WindowIsNoWorkspace(text);
  }

  // ---------------------------------------------------------------- which identifiers are numbers

  predicate Blank(s: string) {
    forall i :: 0 <= i < |s| ==> IsSpace(s[i])
  }

  predicate BareEnds(s: string) {
    s != "" ==> !IsSpace(s[0]) && !IsSpace(s[|s| - 1])
  }

  lemma {:induction false} TrimmedParts(s: string) returns (before: string, after: string)
    ensures s == before + Trimmed(s) + after && Blank(before) && Blank(after) && BareEnds(Trimmed(s))
    decreases |s|
  {
    hide IsSpace;
    before, after := "", "";
    if s != "" && IsSpace(s[0]) {
      before, after := TrimmedParts(s[1..]);
      before := [s[0]] + before;
    } else if s != "" && IsSpace(s[|s| - 1]) {
      before, after := TrimmedParts(s[..|s| - 1]);
      after := after + [s[|s| - 1]];
    }
  }

  lemma {:induction false} TrimmedExactly(before: string, core: string, after: string)
    requires Blank(before) && Blank(after) && BareEnds(core) && core != ""
    ensures Trimmed(before + core + after) == core
    decreases |before| + |after|
  {
    hide IsSpace;
    var s := before + core + after;
    if before != "" {
      assert s[1..] == before[1..] + core + after && s[0] == before[0];
      TrimmedExactly(before[1..], core, after);
    } else if after != "" {
      var n := |after| - 1;
      assert s[..|s| - 1] == before + core + after[..n] && s[|s| - 1] == after[n] && s[0] == core[0];
      TrimmedExactly(before, core, after[..n]);
    } else {
      assert s == core;
    }
  }

  /** Blanks, maybe a sign, the decimal text of a number that fits 32 bits with zeros in front or not, and blanks. */
  ghost predicate IntText(s: string, before: string, sign: string, zeros: nat, number: nat, after: string) {
    && Blank(before) && Blank(after) && sign in {"", "+", "-"}
    && number <= (if sign == "-" then 0x8000_0000 else 0x7FFF_FFFF)
    && s == before + (sign + (Zeros(zeros) + Decimal(number))) + after
  }

  lemma NumeralExactly(s: string, bound: nat)
    ensures IsNumeral(s, bound) <==> exists zeros: nat, number: nat :: number < bound && s == Zeros(zeros) + Decimal(number)
  {
    hide Decimal, Zeros;
    if IsNumeral(s, bound) {
      var zeros := DigitsAreDecimal(s);
    }
    forall zeros: nat, number: nat | number < bound && s == Zeros(zeros) + Decimal(number) ensures IsNumeral(s, bound) {
      DecimalIsReadBack(zeros, number);
    }
  }

  lemma SignedIsBare(sign: string, zeros: nat, number: nat)
    requires sign in {"", "+", "-"}
    ensures var text := sign + (Zeros(zeros) + Decimal(number)); text != "" && BareEnds(text)
  {
    hide Decimal, Zeros;
    DecimalIsReadBack(zeros, number);
    var digits := Zeros(zeros) + Decimal(number);
    assert forall i :: 0 <= i < |digits| ==> !IsSpace(digits[i]);
    assert !IsSpace('+') && !IsSpace('-');
  }

  /** An identifier is taken for a number exactly if it is such a text. */
  lemma ReadsAsIntExactly(s: string)
    ensures ReadsAsInt(s) <==> exists before, sign, zeros, number, after :: IntText(s, before, sign, zeros, number, after)
  {
    if ReadsAsInt(s) {
      var before, sign, zeros, number, after := IntTextOf(s);
    }
    forall before, sign, zeros, number, after | IntText(s, before, sign, zeros, number, after) ensures ReadsAsInt(s) {
      IntTextIsRead(s, before, sign, zeros, number, after);
    }
  }

  lemma IntTextOf(s: string) returns (before: string, sign: string, zeros: nat, number: nat, after: string)
    requires ReadsAsInt(s)
    ensures IntText(s, before, sign, zeros, number, after)
  {
    hide Trimmed, IsNumeral, Decimal, Zeros, IsSpace;
    before, after := TrimmedParts(s);
    var t := Trimmed(s);
    sign := if "-" <= t then "-" else if "+" <= t then "+" else "";
    var bound := if sign == "-" then 0x8000_0001 else 0x8000_0000;
    var digits := t[|sign|..];
    NumeralExactly(digits, bound);
    zeros, number :| number < bound && digits == Zeros(zeros) + Decimal(number);
    assert t == sign + digits;
  }

  lemma IntTextIsRead(s: string, before: string, sign: string, zeros: nat, number: nat, after: string)
    requires IntText(s, before, sign, zeros, number, after)
    ensures ReadsAsInt(s)
  {
    hide Trimmed, IsNumeral, Decimal, Zeros, IsSpace;
    var digits := Zeros(zeros) + Decimal(number);
    var t := sign + digits;
    SignedIsBare(sign, zeros, number);
    TrimmedExactly(before, t, after);
    NumeralExactly(digits, if sign == "-" then 0x8000_0001 else 0x8000_0000);
    DecimalIsReadBack(zeros, number);
    assert t[|sign|..] == digits;
    assert sign == "" ==> t == digits && '0' <= t[0] <= '9';
  }

  /** Slot numbers are dispatched as ordinary workspaces. */
  lemma SlotsAreNumbers(slot: int)
    requires 0 < slot < 0x8000_0000
    ensures ReadsAsInt(Decimal(slot)) && !("special:" <= Decimal(slot))
  {
    hide ReadsAsInt, Decimal;
    DecimalSpells(slot);
    assert Decimal(slot) == "" + ("" + (Zeros(0) + Decimal(slot))) + "";
    IntTextIsRead(Decimal(slot), "", "", 0, slot, "");
  }

  // ---------------------------------------------------------------- each command is about its target

  /** Focuses the workspace with the identifier, in the Lua form. */
  predicate FocusesByLua(c: Command, id: string) {
    || (c == LuaWorkspace(id) && !("special:" <= id))
    || (c.LuaSpecial? && "special:" + c.name == id)
  }

  /** The running command is about the target remembered for the phase. */
  predicate TargetsOf(phase: Phase, running: Option<Issued>, activationId: string, windowAddress: string) {
    && (phase == WorkspaceActivation ==> running.Some? && Focuses(running.value.command, activationId))
    && (phase == LuaActivation ==> running.Some? && FocusesByLua(running.value.command, activationId))
    && (phase == WindowActivation ==> running.Some? && running.value.command == FocusAddress(windowAddress))
    && (phase == LuaWindowActivation ==> running.Some? && running.value.command == LuaAddress(windowAddress))
  }

  predicate Targeted(b: Backend) {
    TargetsOf(b.phase, b.running, b.activationId, b.windowAddress)
  }

  lemma DispatchTargets(b: Backend, id: string)
    requires Targeted(b)
    ensures Targeted(DispatchWorkspace(b, id))
    ensures Free(b) && Dispatchable(id) && NextAccepted(b) ==>
              var c := DispatchWorkspace(b, id);
              c.phase == WorkspaceActivation && c.activationId == id && Focuses(c.running.value.command, id)
  {
    hide Dispatchable;
    if IsSpecial(id) {
      assert id == "special:" + id[|SPECIAL_PREFIX|..];
    }
  }

  lemma DrainTargets(b: Backend)
    requires Targeted(b)
    ensures Targeted(Drain(b))
  {
    hide DispatchWorkspace;
    if Free(b) && b.pendingWindow == None && b.pendingActivation != "" {
      DispatchTargets(b.(pendingActivation := ""), b.pendingActivation);
    }
  }

  lemma LuaTargets(b: Backend)
    requires b.running == None && b.activationIsSpecial == IsSpecial(b.activationId)
    ensures Targeted(RunLuaActivation(b)) && Targeted(RunLuaWindowActivation(b))
  {
    if IsSpecial(b.activationId) {
      assert b.activationId == "special:" + b.activationId[|SPECIAL_PREFIX|..];
    }
  }

  lemma SettlingTargets(b: Backend, reply: Issued, parsed: Option<Parsed>)
    requires b.phase == Idle
    ensures Targeted(Settle(b)) && Targeted(Settle(EmitOffline(b))) && Targeted(CommandFailed(b))
    ensures Targeted(Drain(Publish(b, reply, parsed)))
  {
    hide Drain;
    DrainTargets(b.(dirty := true));
    DrainTargets(EmitOffline(b).(phase := Idle, dirty := true));
    DrainTargets(EmitOffline(b));
    DrainTargets(Publish(b, reply, parsed));
  }

  lemma FailedTargets(b: Backend)
    ensures Targeted(CommandFailed(b)) && Targeted(Settle(b))
  {
    hide Drain;
    var b' := EmitOffline(b.(phase := Idle));
    DrainTargets(b');
    DrainTargets(b'.(dirty := true));
    DrainTargets(b.(phase := Idle, dirty := true));
  }

  lemma FinishedTargets(b: Backend, success: bool, content: Content)
    requires Targeted(b) && b.running.Some? && b.activationIsSpecial == IsSpecial(b.activationId)
    ensures Targeted(Finished(b, success, content))
  {
    hide Drain, RunLuaActivation, RunLuaWindowActivation, IsSpecial, Settle, CommandFailed, Publish;
    var b' := b.(running := None);
    LuaTargets(b');
    FailedTargets(b');
    SettlingTargets(b'.(phase := Idle), b.running.value, content.parsed);
  }

  lemma StepTargets(b: Backend, e: Event)
    requires Invariant(b) && Targeted(b)
    ensures Targeted(Step(b, e))
  {
    hide TellsTruth, RefreshUnderWay, Finished, DispatchWorkspace, Dispatchable, IsSpecial;
    if Enabled(b, e) {
      match e {
        case CommandFinishes(success, content) => FinishedTargets(b, success, content);
        case Workspace(id) => DispatchTargets(b, id);
        case Slot(slot) => DispatchTargets(b, Decimal(slot));
        case Special(id) => DispatchTargets(b, id);
        case _ =>
      }
    }
  }

  /**
   In every run: while an activation is under way the command running focuses exactly the workspace or the window that
   the activation is about, in the plain form first and in the Lua form after an error.
   */
  lemma {:induction false} CommandsFitTheirTarget(accepts: seq<bool>, events: seq<Event>)
    ensures Targeted(Run(accepts, events))
  {
    hide Step, Invariant;
    if events != [] {
      CommandsFitTheirTarget(accepts, events[..|events| - 1]);
      EveryRunKeepsInvariant(accepts, events[..|events| - 1]);
      StepTargets(Run(accepts, events[..|events| - 1]), events[|events| - 1]);
    }
  }
}
