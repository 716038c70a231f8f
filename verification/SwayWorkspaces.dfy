/** The workspace list and its numbering, as parseSwayRefresh of SwayIpc.cpp derives them from the parsed reply. */
module SwayWorkspaces {
  import opened Numerals
  import opened Prelude
  import opened SwayTree

  /** One entry of the reply: text is "" and flags are false when absent, `num` is -1 when it is not an integer. */
  datatype Listed = Listed(name: string, num: int, output: string, focused: bool, visible: bool, urgent: bool, id: Option<int>)

  datatype Workspace = Workspace(
    id: string, displayName: string, order: nat, outputs: seq<string>,
    active: bool, focused: bool, urgent: bool, occupied: bool)

  /** Which slot number each workspace identifier has, and whether slots may be used at all. */
  datatype Numbering = Numbering(eligible: bool, assignments: map<string, int>)

  predicate Ignored(w: Listed) {
    w.name == "" || w.name == SCRATCH_WORKSPACE
  }

  function Kept(listed: seq<Listed>): (kept: seq<Listed>)
    ensures forall w :: w in kept <==> w in listed && !Ignored(w)
  {
    if listed == [] then []
    else
      var n := |listed| - 1;
      assert listed == listed[..n] + [listed[n]];
      if Ignored(listed[n]) then Kept(listed[..n]) else Kept(listed[..n]) + [listed[n]]
  }

  function Identifier(w: Listed): string {
    if w.id.Some? then Decimal(w.id.value) else "name:" + w.name
  }

  function Projected(w: Listed, order: nat, occupied: set<string>): Workspace {
    Workspace(Identifier(w), w.name, order, if w.output == "" then [] else [w.output],
              w.visible, w.focused, w.urgent, w.name in occupied)
  }

  predicate NamedByNumber(w: Listed) {
    w.num > 0 && w.name == Decimal(w.num)
  }

  /** Slots are usable when every kept workspace is named by its own positive number and no number repeats. */
  predicate Eligible(kept: seq<Listed>) {
    && (forall w :: w in kept ==> NamedByNumber(w))
    && (forall i, j :: 0 <= i < j < |kept| ==> kept[i].num != kept[j].num)
  }

  /** The workspace that last claimed an identifier, which is the one both tables keep. */
  ghost predicate LastClaim(kept: seq<Listed>, i: int, identifier: string) {
    && 0 <= i < |kept| && Identifier(kept[i]) == identifier
    && forall j :: i < j < |kept| ==> Identifier(kept[j]) != identifier
  }

  ghost predicate LastNumberedClaim(kept: seq<Listed>, i: int, identifier: string) {
    && 0 <= i < |kept| && Identifier(kept[i]) == identifier && kept[i].num > 0
    && forall j :: i < j < |kept| ==> Identifier(kept[j]) != identifier || kept[j].num <= 0
  }

  ghost predicate NamesAreLastClaims(names: map<string, string>, kept: seq<Listed>) {
    && (forall w :: w in kept ==> Identifier(w) in names)
    && (forall id :: id in names ==> exists i :: LastClaim(kept, i, id) && names[id] == kept[i].name)
  }

  ghost predicate SlotsAreLastClaims(slots: map<string, int>, kept: seq<Listed>) {
    && (forall w :: w in kept && w.num > 0 ==> Identifier(w) in slots)
    && (forall id :: id in slots ==> exists i :: LastNumberedClaim(kept, i, id) && slots[id] == kept[i].num)
  }

  // ---------------------------------------------------------------- what is listed, shown and numbered

  /** Which workspaces are kept: all but unnamed ones and the scratchpad, in order. */
  lemma KeptOne(w: Listed)
    ensures Kept([w]) == if w.name in {"", "__i3_scratch"} then [] else [w]
  {
    assert [w][..0] == [];
  }

  lemma {:induction false} KeptJoined(a: seq<Listed>, b: seq<Listed>)
    ensures Kept(a + b) == Kept(a) + Kept(b)
  {
    if b == [] {
      assert a + b == a;
    } else {
      var n := |b| - 1;
      assert (a + b)[..|a + b| - 1] == a + b[..n];
      KeptJoined(a, b[..n]);
    }
  }

  /** What is shown of a workspace. */
  lemma ProjectedShows(w: Listed, order: nat, occupied: set<string>)
    ensures var shown := Projected(w, order, occupied);
            && shown.id == Identifier(w) && shown.displayName == w.name && shown.order == order
            && (w.output == "" ==> shown.outputs == []) && (w.output != "" ==> shown.outputs == [w.output])
            && shown.active == w.visible && shown.focused == w.focused && shown.urgent == w.urgent
            && (shown.occupied <==> w.name in occupied)
  {}

  /** Two workspaces share an identifier exactly if they have the same ID, or neither has one and they share the name. */
  lemma IdentifiersApart(a: Listed, b: Listed)
    ensures a.id.Some? ==> IsInteger(Identifier(a), a.id.value)
    ensures Identifier(a) == Identifier(b) <==> a.id == b.id && (a.id == None ==> a.name == b.name)
  {
    hide Decimal;
    if a.id.Some? { DecimalIsInteger(a.id.value); }
    if b.id.Some? { DecimalIsInteger(b.id.value); }
    if a.id.Some? && b.id.Some? && Identifier(a) == Identifier(b) {
      IntegersApart(Identifier(a), a.id.value, b.id.value);
    }
    assert a.id == None ==> Identifier(a)[0] == 'n' && Identifier(a)[5..] == a.name;
    assert b.id == None ==> Identifier(b)[0] == 'n' && Identifier(b)[5..] == b.name;
  }

  /** Slots may be used exactly if every kept workspace is named by the decimal text of its positive number, each another. */
  lemma EligibleExactly(kept: seq<Listed>)
    ensures Eligible(kept) <==>
            && (forall i :: 0 <= i < |kept| ==> 1 <= kept[i].num && IsInteger(kept[i].name, kept[i].num))
            && (forall i, j :: 0 <= i < j < |kept| ==> kept[i].num != kept[j].num)
  {
    hide Decimal, IsInteger;
    forall w: Listed ensures NamedByNumber(w) <==> 1 <= w.num && IsInteger(w.name, w.num) {
      IntegerIsDecimal(w.name, w.num);
    }
    assert forall i :: 0 <= i < |kept| ==> kept[i] in kept;
  }

  lemma NamesOneMore(names: map<string, string>, kept: seq<Listed>, w: Listed)
    requires NamesAreLastClaims(names, kept)
    ensures NamesAreLastClaims(names[Identifier(w) := w.name], kept + [w])
  {
    var longer, names' := kept + [w], names[Identifier(w) := w.name];
    forall id | id in names' ensures exists i :: LastClaim(longer, i, id) && names'[id] == longer[i].name {
      if id == Identifier(w) {
        assert LastClaim(longer, |kept|, id);
      } else {
        var i :| LastClaim(kept, i, id) && names[id] == kept[i].name;
        assert LastClaim(longer, i, id);
      }
    }
  }

  lemma SlotsOneMore(slots: map<string, int>, kept: seq<Listed>, w: Listed)
    requires SlotsAreLastClaims(slots, kept)
    ensures SlotsAreLastClaims(if w.num > 0 then slots[Identifier(w) := w.num] else slots, kept + [w])
  {
    var longer, slots' := kept + [w], if w.num > 0 then slots[Identifier(w) := w.num] else slots;
    forall id | id in slots' ensures exists i :: LastNumberedClaim(longer, i, id) && slots'[id] == longer[i].num {
      if id == Identifier(w) && w.num > 0 {
        assert LastNumberedClaim(longer, |kept|, id);
      } else {
        var i :| LastNumberedClaim(kept, i, id) && slots[id] == kept[i].num;
        assert LastNumberedClaim(longer, i, id);
      }
    }
  }

  lemma NothingKept()
    ensures Eligible([]) && NamesAreLastClaims(map[], []) && SlotsAreLastClaims(map[], [])
    ensures Kept([]) == [] && Numbers([]) == {}
  {}

  function Numbers(kept: seq<Listed>): set<int> {
    if kept == [] then {} else Numbers(kept[..|kept| - 1]) + {kept[|kept| - 1].num}
  }

  lemma {:induction false} NumbersMembers(kept: seq<Listed>, n: int)
    ensures n in Numbers(kept) <==> exists i :: 0 <= i < |kept| && kept[i].num == n
  {
    if kept != [] {
      var m := |kept| - 1;
      NumbersMembers(kept[..m], n);
      if kept[m].num != n && exists i :: 0 <= i < |kept| && kept[i].num == n {
        var i :| 0 <= i < |kept| && kept[i].num == n;
        assert kept[..m][i].num == n;
      }
    }
  }

  lemma KeptOneMore(listed: seq<Listed>, k: nat)
    requires k < |listed|
    ensures Kept(listed[..k + 1]) == Kept(listed[..k]) + if Ignored(listed[k]) then [] else [listed[k]]
  {
    assert listed[..k + 1][..k] == listed[..k];
  }

  lemma NumbersOneMore(kept: seq<Listed>, w: Listed)
    ensures Numbers(kept + [w]) == Numbers(kept) + {w.num}
  {
    assert (kept + [w])[..|kept|] == kept;
  }

  method ProjectWorkspaces(listed: seq<Listed>, occupied: set<string>)
    returns (workspaces: seq<Workspace>, numbered: Numbering, names: map<string, string>)
    ensures var kept := Kept(listed);
            && |workspaces| == |kept|
            && (forall i :: 0 <= i < |kept| ==> workspaces[i] == Projected(kept[i], i, occupied))
            && (numbered.eligible <==> Eligible(kept))
            && NamesAreLastClaims(names, kept)
            && SlotsAreLastClaims(numbered.assignments, kept)
  {
    hide Decimal, NamesAreLastClaims, SlotsAreLastClaims, Eligible, Kept, Numbers;
    NothingKept();
    workspaces, numbered, names := [], Numbering(true, map[]), map[];
    var seen: set<int> := {};
    ghost var kept: seq<Listed> := [];
    for k := 0 to |listed|
      invariant kept == Kept(listed[..k])
      invariant |workspaces| == |kept|
      invariant forall i :: 0 <= i < |kept| ==> workspaces[i] == Projected(kept[i], i, occupied)
      invariant seen == Numbers(kept)
      invariant numbered.eligible <==> Eligible(kept)
      invariant NamesAreLastClaims(names, kept)
      invariant SlotsAreLastClaims(numbered.assignments, kept)
    {
      var w := listed[k];
      KeptOneMore(listed, k);
      if Ignored(w) {
        continue;
      }
      var identifier := if w.id.Some? then Decimal(w.id.value) else "name:" + w.name;
      NamesOneMore(names, kept, w);
      SlotsOneMore(numbered.assignments, kept, w);
      EligibleOneMore(kept, w);
      names := names[identifier := w.name];
      if w.num > 0 {
        numbered := numbered.(assignments := numbered.assignments[identifier := w.num]);
      }
      if w.num <= 0 || w.name != Decimal(w.num) || w.num in seen {
        numbered := numbered.(eligible := false);
      }
      seen := seen + {w.num};
      workspaces := workspaces + [Workspace(identifier, w.name, |workspaces|, if w.output == "" then [] else [w.output],
                                            w.visible, w.focused, w.urgent, w.name in occupied)];
      NumbersOneMore(kept, w);
      kept := kept + [w];
    }
    assert listed[..|listed|] == listed;
  }

  lemma EligibleOneMore(kept: seq<Listed>, w: Listed)
    ensures Eligible(kept + [w])
            <==> Eligible(kept) && NamedByNumber(w) && w.num !in Numbers(kept)
  {
    NumbersMembers(kept, w.num);
    var longer := kept + [w];
    if Eligible(longer) {
      assert forall i :: 0 <= i < |kept| ==> longer[i] == kept[i];
      assert longer[|kept|] == w && w in longer;
      forall v | v in kept ensures NamedByNumber(v) { assert v in longer; }
      forall i, j | 0 <= i < j < |kept| ensures kept[i].num != kept[j].num { assert longer[i].num != longer[j].num; }
    }
  }

  /**
   When slots are usable, the two tables agree: every workspace has a slot, the slot's decimal text is the name the
   activation command uses, and different names have different slots.
   */
  lemma EligibleSlotsNameWorkspaces(kept: seq<Listed>, names: map<string, string>, slots: map<string, int>)
    requires Eligible(kept) && NamesAreLastClaims(names, kept) && SlotsAreLastClaims(slots, kept)
    ensures names.Keys == slots.Keys
    ensures forall id :: id in names ==> slots[id] > 0 && names[id] == Decimal(slots[id])
    ensures forall a, b :: a in names && b in names ==> (names[a] == names[b] <==> slots[a] == slots[b])
  {
    hide Decimal;
    forall id | id in names ensures id in slots {
      var i :| LastClaim(kept, i, id);
      assert kept[i] in kept;
    }
    forall id | id in slots ensures id in names && slots[id] > 0 && names[id] == Decimal(slots[id]) {
      var i :| LastNumberedClaim(kept, i, id) && slots[id] == kept[i].num;
      assert kept[i] in kept;
      var j :| LastClaim(kept, j, id) && names[id] == kept[j].name;
      assert kept[j] in kept;
      assert i == j;
    }
    forall a, b | a in names && b in names ensures names[a] == names[b] <==> slots[a] == slots[b] {
      if names[a] == names[b] { DecimalIsInjective(slots[a], slots[b]); }
    }
  }
}
