/** What the messages that SwayBackend sends mean to Sway, by their type and text (sway-ipc(7), "MESSAGES AND REPLIES"). */
module SwayCommands {
  import opened Numerals
  import opened Prelude
  import opened SwaySession
  import Ipc = SwayIpc

  /** A decimal number without a sign or zeros in front. */
  function ReadNumber(text: string): Option<nat> {
    if text != "" && IsDigits(text) && (text[0] != '0' || text == "0") then Some(NumberOf(text)) else None
  }

  /** Sway's reading of a command: focus a container by its ID, or switch to a workspace by number or by quoted name. */
  function ReadText(text: string): Option<Command> {
    var slot, name := "workspace --no-auto-back-and-forth number ", "workspace --no-auto-back-and-forth \"";
    if "[con_id=" <= text && |text| >= 15 && text[|text| - 7..] == "] focus" then
      match ReadNumber(text[8..|text| - 7])
      case Some(container) => Some(FocusWindow(container))
      case None => None
    else if slot <= text then
      match ReadNumber(text[|slot|..])
      case Some(number) => Some(FocusSlot(number))
      case None => None
    else if name <= text then
      match Ipc.ReadQuoted(text[|name|..])
      case Some((quoted, rest)) => if rest == "" then Some(FocusName(quoted)) else None
      case None => None
    else None
  }

  /** Message types: 0 runs a command, 1 asks for the workspaces, 3 for the outputs, 4 for the tree. */
  function ReadMessage(kind: nat, text: string): Option<Command> {
    if kind == 0 then ReadText(text)
    else if text != "" then None
    else if kind == 1 then Some(GetWorkspaces)
    else if kind == 3 then Some(GetOutputs)
    else if kind == 4 then Some(GetTree)
    else None
  }

  lemma DecimalIsRead(n: nat)
    ensures ReadNumber(Decimal(n)) == Some(n)
  {
    DecimalSpells(n);
    if n == 0 { assert Decimal(0) == "0"; }
  }

  /** Every message is read back as the command it was made for; so no two targets share a message. */
  lemma MessageIsReadBack(c: Command)
    ensures ReadMessage(KindOf(c), Text(c)) == Some(c)
  {
    hide Ipc.EscapeWorkspaceName, Ipc.ReadQuoted, Decimal, ReadNumber;
    match c
    case FocusName(name) => NameIsReadBack(name);
    case FocusSlot(slot) => SlotIsReadBack(slot);
    case FocusWindow(container) => WindowIsReadBack(container);
    case _ =>
  }

  lemma NameIsReadBack(name: string)
    ensures ReadText(Text(FocusName(name))) == Some(FocusName(name))
  {
    hide Ipc.EscapeWorkspaceName, Ipc.ReadQuoted, ReadNumber;
    var prefix, text := "workspace --no-auto-back-and-forth \"", Text(FocusName(name));
    assert text == prefix + (Ipc.EscapeWorkspaceName(name) + "\"" + "");
    assert text[0] == 'w' && text[35] == '"';
    Ipc.QuotedNameIsRecovered(name, "");
  }

  lemma SlotIsReadBack(slot: nat)
    ensures ReadText(Text(FocusSlot(slot))) == Some(FocusSlot(slot))
  {
    hide Ipc.ReadQuoted, Decimal, ReadNumber;
    var prefix, text := "workspace --no-auto-back-and-forth number ", Text(FocusSlot(slot));
    assert text == prefix + Decimal(slot) && text[0] == 'w';
    DecimalIsRead(slot);
  }

  lemma WindowIsReadBack(container: nat)
    ensures ReadText(Text(FocusWindow(container))) == Some(FocusWindow(container))
  {
    hide Ipc.ReadQuoted, Decimal, ReadNumber;
    var text := Text(FocusWindow(container));
    assert text == "[con_id=" + (Decimal(container) + "] focus") && text[8..|text| - 7] == Decimal(container);
    DecimalIsRead(container);
  }
}
