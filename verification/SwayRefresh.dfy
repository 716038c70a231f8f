/** parseSwayRefresh of SwayIpc.cpp from parsed replies on: the tree, the workspaces and their numbering put together. */
module SwayRefresh {
  import opened Numerals
  import opened Prelude
  import N = SwayWorkspaces
  import T = SwayTree
  import W = WindowActivation

  datatype Output = Output(name: string, focused: bool)

  /** What a refresh leaves for activations: the numbering, the names, and the windows of the tree it saw. */
  datatype Parsed = Parsed(numbered: N.Numbering, names: map<string, string>, windows: seq<(W.Candidate, nat)>, tree: T.Node)

  /** The part of the snapshot that is shown. */
  datatype Shown = Shown(focusedOutput: string, workspaces: seq<N.Workspace>, active: map<string, T.ActiveWindow>, windows: seq<T.Window>)

  function Activatable(infos: seq<T.WindowInfo>): (r: seq<(W.Candidate, nat)>)
    ensures |r| == |infos|
    ensures forall i :: 0 <= i < |r| ==> r[i] == (W.Candidate(infos[i].pid, infos[i].title), infos[i].containerId)
  {
    seq(|infos|, i requires 0 <= i < |infos| => (W.Candidate(infos[i].pid, infos[i].title), infos[i].containerId))
  }

  ghost predicate ParsedFrom(p: Parsed, listed: seq<N.Listed>) {
    && p.windows == Activatable(T.Inspect(p.tree).activation)
    && N.NamesAreLastClaims(p.names, N.Kept(listed))
    && N.SlotsAreLastClaims(p.numbered.assignments, N.Kept(listed))
    && (p.numbered.eligible <==> N.Eligible(N.Kept(listed)))
  }

  /** A workspace is shown as occupied exactly if a path of the tree ends in a container that occupies its name. */
  ghost predicate ShownFrom(s: Shown, listed: seq<N.Listed>, tree: T.Node) {
    && |s.workspaces| == |N.Kept(listed)|
    && (forall i :: 0 <= i < |s.workspaces| ==>
          && s.workspaces[i].id == N.Identifier(N.Kept(listed)[i]) && s.workspaces[i].displayName == N.Kept(listed)[i].name
          && s.workspaces[i].order == i
          && (s.workspaces[i].occupied <==> exists p :: T.IsPath(p, tree) && T.Occupies(p, s.workspaces[i].displayName)))
    && s.active == T.Inspect(tree).active && s.windows == T.Inspect(tree).windows
  }

  /** None stands for a reply that is not JSON of the expected kind; each one makes the whole refresh fail. */
  method Parse(listed: Option<seq<N.Listed>>, outputs: Option<seq<Output>>, tree: Option<T.Node>)
    returns (parsed: Option<Parsed>, shown: Option<Shown>)
    ensures parsed.Some? <==> listed.Some? && outputs.Some? && tree.Some?
    ensures shown.Some? <==> parsed.Some?
    ensures parsed.Some? ==> parsed.value.tree == tree.value && ParsedFrom(parsed.value, listed.value)
    ensures parsed.Some? ==> ShownFrom(shown.value, listed.value, tree.value)
    ensures parsed.Some? ==> shown.value.focusedOutput == FirstFocused(outputs.value)
  {
    if listed.None? || outputs.None? || tree.None? {
      return None, None;
    }
    hide T.Walk, T.Inspect, N.Eligible, N.NamesAreLastClaims, N.SlotsAreLastClaims, ShownFrom, Activatable;
    var inspector := InspectTree(tree.value);
    var focused := FindFocused(outputs.value);
    var workspaces, numbered, names := N.ProjectWorkspaces(listed.value, inspector.occupied);
    parsed := Some(Parsed(numbered, names, Activatable(inspector.activation), tree.value));
    shown := Some(Shown(focused, workspaces, inspector.active, inspector.windows));
    WorkspacesShown(shown.value, listed.value, tree.value);
  }

  method InspectTree(tree: T.Node) returns (inspector: T.TreeInspector)
    ensures inspector.View() == T.Inspect(tree)
  {
    inspector := new T.TreeInspector();
    inspector.Inspect(tree, "", "", true, false);
  }

  lemma WorkspacesShown(s: Shown, listed: seq<N.Listed>, tree: T.Node)
    requires |s.workspaces| == |N.Kept(listed)|
    requires forall i :: 0 <= i < |s.workspaces| ==> s.workspaces[i] == N.Projected(N.Kept(listed)[i], i, T.Inspect(tree).occupied)
    requires s.active == T.Inspect(tree).active && s.windows == T.Inspect(tree).windows
    ensures ShownFrom(s, listed, tree)
  {
    hide T.Inspect, T.IsPath, T.Occupies;
    forall i | 0 <= i < |s.workspaces|
      ensures s.workspaces[i].occupied <==> exists p :: T.IsPath(p, tree) && T.Occupies(p, s.workspaces[i].displayName)
    {
      T.OccupiedExactly(tree, s.workspaces[i].displayName);
    }
  }

  function FirstFocused(outputs: seq<Output>): string {
    if outputs == [] then "" else if outputs[0].focused then outputs[0].name else FirstFocused(outputs[1..])
  }

  /** The output shown as focused is the first one that says so, or none. */
  lemma {:induction false} FirstFocusedExactly(outputs: seq<Output>)
    ensures (forall i :: 0 <= i < |outputs| ==> !outputs[i].focused) ==> FirstFocused(outputs) == ""
    ensures forall i :: 0 <= i < |outputs| && outputs[i].focused && (forall j :: 0 <= j < i ==> !outputs[j].focused) ==>
              FirstFocused(outputs) == outputs[i].name
  {
    if outputs != [] && !outputs[0].focused {
      FirstFocusedExactly(outputs[1..]);
      assert forall j :: 0 < j < |outputs| ==> outputs[j] == outputs[1..][j - 1];
    }
  }

  method FindFocused(outputs: seq<Output>) returns (name: string)
    ensures name == FirstFocused(outputs)
  {
    for i := 0 to |outputs|
      invariant FirstFocused(outputs[i..]) == FirstFocused(outputs)
    {
      if outputs[i].focused {
        return outputs[i].name;
      }
      assert outputs[i..][1..] == outputs[i + 1..];
    }
    return "";
  }

  // ---------------------------------------------------------------- where a window to activate comes from

  lemma {:induction false} ActivationsAtMembers(paths: seq<T.Path>, info: T.WindowInfo)
    requires [] !in paths && info in T.ActivationsAt(paths)
    ensures exists p :: p in paths && T.ActivationOf(T.Last(p)) == Some(info)
  {
    hide T.ActivationOf;
    if T.ActivationOf(T.Last(paths[0])) != Some(info) {
      ActivationsAtMembers(paths[1..], info);
    }
  }

  /** Every window that can be activated stands at the end of a path of the tree, with that process, title and container. */
  lemma ActivatableIsInTheTree(tree: T.Node, i: nat)
    requires i < |Activatable(T.Inspect(tree).activation)|
    ensures exists p ::
              && T.IsPath(p, tree)
              && T.ActivationOf(T.Last(p)) == Some(T.WindowInfo(
                   Activatable(T.Inspect(tree).activation)[i].0.pid,
                   Activatable(T.Inspect(tree).activation)[i].0.title,
                   Activatable(T.Inspect(tree).activation)[i].1))
  {
    hide T.ActivationOf, T.Inspect, T.ActivationsAt, T.IsPath;
    var infos, paths := T.Inspect(tree).activation, T.Paths([], tree);
    T.InventoriesFollowPaths(tree);
    assert infos[i] in infos;
    ActivationsAtMembers(paths, infos[i]);
    var p :| p in paths && T.ActivationOf(T.Last(p)) == Some(infos[i]);
    T.PathsFromTheRoot(tree, p);
  }

  /** When slots may be used, the tables of the refresh agree: same workspaces, and each name is its slot's decimal text. */
  ghost predicate TablesAgree(numbered: N.Numbering, names: map<string, string>) {
    numbered.eligible ==>
      && names.Keys == numbered.assignments.Keys
      && forall id :: id in names ==> numbered.assignments[id] > 0 && names[id] == Decimal(numbered.assignments[id])
  }

  lemma ParsedTablesAgree(p: Parsed, listed: seq<N.Listed>)
    requires ParsedFrom(p, listed)
    ensures TablesAgree(p.numbered, p.names)
  {
    if p.numbered.eligible {
      N.EligibleSlotsNameWorkspaces(N.Kept(listed), p.names, p.numbered.assignments);
    }
  }
}
