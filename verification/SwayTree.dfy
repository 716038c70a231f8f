/**
 The projection of the Sway layout tree in SwayIpc.cpp. A one-pass walk that hands inherited context down and appends
 to shared accumulators is shown equal to a specification that looks only at root-to-node paths.
 */
module SwayTree {
  import opened Numerals
  import opened Prelude

  // ---------------------------------------------------------------- the parsed tree

  /** A JSON member that should hold a list of nodes; entries that are not objects are kept because they make it non-empty. */
  datatype Children = NotAnArray | Array(items: seq<Child>)
  datatype Child = Object(node: Node) | OtherValue

  /** Text members read as "" and flags as false when absent; numbers and app_id are None unless of the right JSON type. */
  datatype Node = Node(
    kind: string,
    name: string,
    appId: Option<string>,
    shell: string,
    pid: Option<real>,
    id: Option<real>,
    fullscreenMode: Option<real>,
    focused: bool,
    windowClass: string,
    nodes: Children,
    floating: Children)

  function Items(c: Children): seq<Child> {
    if c.NotAnArray? then [] else c.items
  }

  ghost function Size(n: Node): nat {
    1 + (if n.nodes.Array? then SizeAll(n.nodes.items) else 0) + (if n.floating.Array? then SizeAll(n.floating.items) else 0)
  }

  ghost function SizeAll(children: seq<Child>): nat {
    if children == [] then 0
    else
      var first := children[0];
      assert first.Object? ==> first.node < first;
      1 + (if first.Object? then Size(first.node) else 0) + SizeAll(children[1..])
  }

  const MAX_UINT32: nat := 0xFFFF_FFFF
  const MAX_UINT64: nat := 0xFFFF_FFFF_FFFF_FFFF
  const SCRATCH_WORKSPACE := "__i3_scratch"

  function PositiveInteger(value: Option<real>, max: nat): Option<nat> {
    match value
    case None => None
    case Some(r) => if r < 1.0 || r > max as real || r.Floor as real != r then None else Some(r.Floor)
  }

  lemma PositiveIntegerMeaning(value: Option<real>, max: nat, n: nat)
    ensures PositiveInteger(value, max) == Some(n) <==> value == Some(n as real) && 1 <= n <= max
  {
    if value == Some(n as real) {
      assert (n as real).Floor == n;
    }
  }

  // ---------------------------------------------------------------- what one node contributes

  datatype Window = Window(id: string, title: string, appId: string, fullscreen: bool, pid: nat)
  datatype WindowInfo = WindowInfo(pid: nat, title: string, containerId: nat)
  datatype ActiveWindow = ActiveWindow(appId: string, title: string)

  predicate NativeLeaf(n: Node) {
    n.nodes == Array([]) && n.floating == Array([])
  }

  predicate Leaf(n: Node) {
    Items(n.nodes) == [] && Items(n.floating) == []
  }

  predicate FullscreenCon(n: Node) {
    n.kind == "con" && (n.fullscreenMode == Some(1.0) || n.fullscreenMode == Some(2.0))
  }

  function WindowOf(n: Node, fullscreen: bool): Option<Window> {
    if n.kind == "con" && NativeLeaf(n) && n.appId.Some? && n.shell == "xdg_shell" then
      match (PositiveInteger(n.pid, MAX_UINT32), PositiveInteger(n.id, MAX_UINT64))
      case (Some(pid), Some(id)) => Some(Window(Decimal(id), n.name, n.appId.value, fullscreen, pid))
      case _ => None
    else None
  }

  function ActivationOf(n: Node): Option<WindowInfo> {
    if n.kind == "con" then
      match (PositiveInteger(n.pid, MAX_UINT32), PositiveInteger(n.id, MAX_UINT64))
      case (Some(pid), Some(id)) => Some(WindowInfo(pid, n.name, id))
      case _ => None
    else None
  }

  function ActiveWindowOf(n: Node): ActiveWindow {
    ActiveWindow(if n.appId.Some? && n.appId.value != "" then n.appId.value else n.windowClass, n.name)
  }

  /** A whole JSON number from 1 to the bound. */
  predicate IsNumber(value: Option<real>, n: nat, bound: nat) {
    value == Some(n as real) && 1 <= n <= bound
  }

  lemma NumbersRead(value: Option<real>, bound: nat)
    ensures PositiveInteger(value, bound).Some? <==> exists n: nat :: IsNumber(value, n, bound)
    ensures forall n: nat :: IsNumber(value, n, bound) ==> PositiveInteger(value, bound) == Some(n)
  {
    forall n: nat | IsNumber(value, n, bound) ensures PositiveInteger(value, bound) == Some(n) {
      PositiveIntegerMeaning(value, bound, n);
    }
    if PositiveInteger(value, bound).Some? {
      PositiveIntegerMeaning(value, bound, PositiveInteger(value, bound).value);
      assert IsNumber(value, PositiveInteger(value, bound).value, bound);
    }
  }

  /** A native window: a container with both child lists present and empty, an application ID, the xdg shell, a process. */
  lemma WindowExactly(n: Node, fullscreen: bool, w: Window)
    ensures WindowOf(n, fullscreen) == Some(w) <==>
            && n.kind == "con" && n.nodes == Array([]) && n.floating == Array([])
            && n.appId == Some(w.appId) && n.shell == "xdg_shell" && w.title == n.name && w.fullscreen == fullscreen
            && IsNumber(n.pid, w.pid, 0xFFFF_FFFF)
            && exists id: nat :: IsNumber(n.id, id, 0xFFFF_FFFF_FFFF_FFFF) && w.id == Decimal(id)
  {
    hide PositiveInteger, Decimal;
    NumbersRead(n.pid, MAX_UINT32);
    NumbersRead(n.id, MAX_UINT64);
  }

  /** A window that can be focused: any container with a process and an ID. */
  lemma ActivationExactly(n: Node, i: WindowInfo)
    ensures ActivationOf(n) == Some(i) <==>
            && n.kind == "con" && i.title == n.name
            && IsNumber(n.pid, i.pid, 0xFFFF_FFFF) && IsNumber(n.id, i.containerId, 0xFFFF_FFFF_FFFF_FFFF)
  {
    hide PositiveInteger;
    NumbersRead(n.pid, MAX_UINT32);
    NumbersRead(n.id, MAX_UINT64);
  }

  /** The active window shows its title and its application ID, or its X11 class when it has none. */
  lemma ActiveWindowExactly(n: Node)
    ensures ActiveWindowOf(n).title == n.name
    ensures n.appId in {None, Some("")} ==> ActiveWindowOf(n).appId == n.windowClass
    ensures n.appId !in {None, Some("")} ==> Some(ActiveWindowOf(n).appId) == n.appId
  {}

  // ---------------------------------------------------------------- the walk

  /** The four accumulators the walk appends to. */
  datatype Findings = Findings(
    occupied: set<string>,
    active: map<string, ActiveWindow>,
    activation: seq<WindowInfo>,
    windows: seq<Window>)

  const NOTHING := Findings({}, map[], [], [])

  /** What is handed down from parent to child. */
  datatype Context = Context(output: string, workspace: string, project: bool, fullscreen: bool)

  const TOP := Context("", "", true, false)

  function Enter(c: Context, n: Node): Context {
    Context(
      if n.kind == "output" then n.name else c.output,
      if n.kind == "workspace" then n.name else c.workspace,
      c.project && !(n.kind == "workspace" && n.name == SCRATCH_WORKSPACE),
      c.fullscreen || FullscreenCon(n))
  }

  function Append<T>(s: seq<T>, x: Option<T>): seq<T> {
    if x.Some? then s + [x.value] else s
  }

  function Record(f: Findings, n: Node, c: Context): Findings {
    var seen := f.(windows := Append(f.windows, WindowOf(n, c.fullscreen)),
                   activation := Append(f.activation, ActivationOf(n)));
    if c.project && Leaf(n) && c.workspace != "" && n.kind == "con" then
      seen.(occupied := seen.occupied + {c.workspace},
            active := if n.focused && c.output != "" then seen.active[c.output := ActiveWindowOf(n)] else seen.active)
    else seen
  }

  function Walk(f: Findings, n: Node, c: Context): Findings
    decreases Size(n)
  {
    var here := Enter(c, n);
    WalkAll(WalkAll(Record(f, n, here), Items(n.nodes), here), Items(n.floating), here)
  }

  function WalkAll(f: Findings, children: seq<Child>, c: Context): Findings
    decreases SizeAll(children)
  {
    if children == [] then f
    else WalkAll(if children[0].Object? then Walk(f, children[0].node, c) else f, children[1..], c)
  }

  // ---------------------------------------------------------------- paths

  /** The nodes from the root to some node, both included. */
  type Path = seq<Node>

  predicate ChildOf(child: Node, parent: Node) {
    Object(child) in Items(parent.nodes) || Object(child) in Items(parent.floating)
  }

  predicate IsPath(p: Path, root: Node) {
    p != [] && p[0] == root && forall i :: 0 < i < |p| ==> ChildOf(p[i], p[i - 1])
  }

  function Last(p: Path): Node
    requires p != []
  {
    p[|p| - 1]
  }

  /** Every path that starts with `above` followed by `n`, in the order the walk meets its last node. */
  function Paths(above: Path, n: Node): seq<Path>
    decreases Size(n)
  {
    var here := above + [n];
    [here] + PathsAll(here, Items(n.nodes)) + PathsAll(here, Items(n.floating))
  }

  function PathsAll(above: Path, children: seq<Child>): seq<Path>
    decreases SizeAll(children)
  {
    if children == [] then []
    else (if children[0].Object? then Paths(above, children[0].node) else []) + PathsAll(above, children[1..])
  }

  /** The paths enumerated are exactly those along child links that extend `above`. */
  ghost predicate Continues(p: Path, above: Path, n: Node) {
    |p| > |above| && p[..|above|] == above && IsPath(p[|above|..], n)
  }

  lemma {:induction false} PathsAreContinuations(above: Path, n: Node, p: Path)
    ensures p in Paths(above, n) <==> Continues(p, above, n)
    decreases Size(n)
  {
    var here := above + [n];
    PathsAllAreContinuations(here, Items(n.nodes), p);
    PathsAllAreContinuations(here, Items(n.floating), p);
    if Continues(p, above, n) {
      ContinuationSplits(p, above, n);
    }
    if p == here {
      assert p[..|above|] == above && p[|above|..] == [n];
    }
    forall c | ChildOf(c, n) && Continues(p, here, c) ensures Continues(p, above, n) {
      ContinuationExtends(p, above, n, c);
    }
  }

  lemma ContinuationSplits(p: Path, above: Path, n: Node)
    requires Continues(p, above, n)
    ensures p == above + [n] || exists c :: ChildOf(c, n) && Continues(p, above + [n], c)
  {
    var k := |above|;
    var q := p[k..];
    assert p == above + q;
    if |q| == 1 {
      assert q == [n];
    } else {
      var r := p[k + 1..];
      assert forall i :: 0 <= i < |r| ==> r[i] == q[i + 1];
      assert ChildOf(q[1], q[0]);
      assert p[..k + 1] == above + [n];
      assert Continues(p, above + [n], q[1]);
    }
  }

  lemma ContinuationExtends(p: Path, above: Path, n: Node, c: Node)
    requires ChildOf(c, n) && Continues(p, above + [n], c)
    ensures Continues(p, above, n)
  {
    var k := |above|;
    var q, r := p[k..], p[k + 1..];
    assert q[0] == p[..k + 1][k] == n;
    assert p[..k] == p[..k + 1][..k] == above;
    forall i | 0 < i < |q| ensures ChildOf(q[i], q[i - 1]) {
      assert q[i] == r[i - 1];
      if i > 1 { assert q[i - 1] == r[i - 2]; }
    }
  }

  lemma {:induction false} PathsAllAreContinuations(above: Path, children: seq<Child>, p: Path)
    ensures p in PathsAll(above, children) <==> exists c :: Object(c) in children && Continues(p, above, c)
    decreases SizeAll(children)
  {
    if children != [] {
      assert children == [children[0]] + children[1..];
      PathsAllAreContinuations(above, children[1..], p);
      if children[0].Object? {
        PathsAreContinuations(above, children[0].node, p);
      }
    }
  }

  /** The enumeration is complete and sound: exactly the child-link paths from the root. */
  lemma PathsFromTheRoot(root: Node, p: Path)
    ensures p in Paths([], root) <==> IsPath(p, root)
  {
    PathsAreContinuations([], root, p);
    assert p[0..] == p;
  }

  // ---------------------------------------------------------------- the specification, in terms of paths only

  /** The name of the nearest node of a kind on the path, its end included; empty when there is none. */
  function NearestName(p: Path, kind: string): string {
    if p == [] then "" else if Last(p).kind == kind then Last(p).name else NearestName(p[..|p| - 1], kind)
  }

  predicate Fullscreen(p: Path) {
    exists i :: 0 <= i < |p| && FullscreenCon(p[i])
  }

  predicate InScratch(p: Path) {
    exists i :: 0 <= i < |p| && p[i].kind == "workspace" && p[i].name == SCRATCH_WORKSPACE
  }

  /** A childless container whose nearest workspace has a name and that no scratch workspace contains. */
  predicate Occupies(p: Path, workspace: string) {
    && p != [] && Last(p).kind == "con" && Leaf(Last(p))
    && workspace != "" && NearestName(p, "workspace") == workspace
    && !InScratch(p)
  }

  predicate Focuses(p: Path, output: string) {
    && p != [] && Occupies(p, NearestName(p, "workspace"))
    && Last(p).focused && output != "" && NearestName(p, "output") == output
  }

  function WindowAt(p: Path): Option<Window>
    requires p != []
  {
    WindowOf(Last(p), Fullscreen(p))
  }

  /** The k-th node of the path is the nearest one of its kind to the end. */
  predicate Nearest(p: Path, k: int, kind: string) {
    0 <= k < |p| && p[k].kind == kind && forall j :: k < j < |p| ==> p[j].kind != kind
  }

  lemma {:induction false} NearestNameExactly(p: Path, kind: string, name: string)
    requires name != ""
    ensures NearestName(p, kind) == name <==> exists k :: Nearest(p, k, kind) && p[k].name == name
  {
    if p != [] {
      var n := |p| - 1;
      var before := p[..n];
      if p[n].kind == kind {
        assert Nearest(p, n, kind);
      } else {
        NearestNameExactly(before, kind, name);
        forall k ensures Nearest(p, k, kind) <==> Nearest(before, k, kind) {
          assert forall j :: 0 <= j < n ==> before[j] == p[j];
        }
      }
    }
  }

  predicate NoChildren(c: Children) {
    c == NotAnArray || c == Array([])
  }

  /** A workspace is occupied by a container without children below it, unless a scratch workspace is above. */
  lemma OccupiesExactly(p: Path, workspace: string)
    ensures Occupies(p, workspace) <==>
            && p != [] && p[|p| - 1].kind == "con" && NoChildren(p[|p| - 1].nodes) && NoChildren(p[|p| - 1].floating)
            && workspace != "" && (exists k :: Nearest(p, k, "workspace") && p[k].name == workspace)
            && forall k :: 0 <= k < |p| ==> p[k].kind != "workspace" || p[k].name != "__i3_scratch"
  {
    if workspace != "" { NearestNameExactly(p, "workspace", workspace); }
    hide NearestName;
  }

  /** And it is shown as active on an output by the focused ones among them. */
  lemma FocusesExactly(p: Path, output: string)
    ensures Focuses(p, output) <==>
            && (exists workspace :: Occupies(p, workspace)) && p[|p| - 1].focused
            && output != "" && exists k :: Nearest(p, k, "output") && p[k].name == output
  {
    if output != "" { NearestNameExactly(p, "output", output); }
    hide NearestName;
  }

  /** Fullscreen comes from the window or any container above it, in mode 1 or 2. */
  lemma FullscreenExactly(p: Path)
    ensures Fullscreen(p) <==> exists k :: 0 <= k < |p| && p[k].kind == "con" && p[k].fullscreenMode in {Some(1.0), Some(2.0)}
  {
    if Fullscreen(p) {
      var k :| 0 <= k < |p| && FullscreenCon(p[k]);
    }
    if k :| 0 <= k < |p| && p[k].kind == "con" && p[k].fullscreenMode in {Some(1.0), Some(2.0)} {
      assert FullscreenCon(p[k]);
    }
  }

  // ---------------------------------------------------------------- the walk against the paths

  /** The context the walk should have at the end of a path. */
  function ContextOf(p: Path): Context {
    Context(NearestName(p, "output"), NearestName(p, "workspace"), !InScratch(p), Fullscreen(p))
  }

  lemma EnterSummarises(p: Path, n: Node)
    ensures Enter(ContextOf(p), n) == ContextOf(p + [n])
  {
    var q := p + [n];
    assert q[..|p|] == p;
    assert q[|p|] == n && forall i :: 0 <= i < |p| ==> q[i] == p[i];
    if Fullscreen(p) { var i :| 0 <= i < |p| && FullscreenCon(p[i]); assert FullscreenCon(q[i]); }
    if FullscreenCon(n) { assert FullscreenCon(q[|p|]); }
  }

  function RecordAll(f: Findings, paths: seq<Path>): Findings
    requires [] !in paths
    decreases |paths|
  {
    if paths == [] then f
    else RecordAll(Record(f, Last(paths[0]), ContextOf(paths[0])), paths[1..])
  }

  lemma {:induction false} RecordAllOfSum(f: Findings, a: seq<Path>, b: seq<Path>)
    requires [] !in a && [] !in b
    ensures [] !in a + b && RecordAll(f, a + b) == RecordAll(RecordAll(f, a), b)
    decreases |a|
  {
    if a == [] {
      assert a + b == b;
    } else {
      assert (a + b)[1..] == a[1..] + b;
      RecordAllOfSum(Record(f, Last(a[0]), ContextOf(a[0])), a[1..], b);
    }
  }

  /** The one-pass walk records exactly the paths, in their order, with context computed from each path alone. */
  lemma {:induction false} WalkFollowsPaths(f: Findings, n: Node, above: Path)
    ensures [] !in Paths(above, n)
    ensures Walk(f, n, ContextOf(above)) == RecordAll(f, Paths(above, n))
    decreases Size(n)
  {
    hide Record, ContextOf, Enter;
    var here := above + [n];
    EnterSummarises(above, n);
    var c := ContextOf(here);
    var f1 := Record(f, n, c);
    var a, b := PathsAll(here, Items(n.nodes)), PathsAll(here, Items(n.floating));
    WalkAllFollowsPaths(f1, Items(n.nodes), here);
    WalkAllFollowsPaths(RecordAll(f1, a), Items(n.floating), here);
    RecordAllOfSum(f, [here], a);
    RecordAllOfSum(f, [here] + a, b);
    assert RecordAll(f, [here]) == f1;
  }

  lemma {:induction false} WalkAllFollowsPaths(f: Findings, children: seq<Child>, above: Path)
    ensures [] !in PathsAll(above, children)
    ensures WalkAll(f, children, ContextOf(above)) == RecordAll(f, PathsAll(above, children))
    decreases SizeAll(children)
  {
    hide Record, ContextOf, Enter;
    if children != [] {
      var head := if children[0].Object? then Paths(above, children[0].node) else [];
      if children[0].Object? {
        WalkFollowsPaths(f, children[0].node, above);
      }
      WalkAllFollowsPaths(RecordAll(f, head), children[1..], above);
      RecordAllOfSum(f, head, PathsAll(above, children[1..]));
    }
  }

  function Inspect(root: Node): Findings {
    Walk(NOTHING, root, TOP)
  }

  lemma InspectRecordsPaths(root: Node)
    ensures [] !in Paths([], root) && Inspect(root) == RecordAll(NOTHING, Paths([], root))
  {
    assert ContextOf([]) == TOP;
    WalkFollowsPaths(NOTHING, root, []);
  }

  // ---------------------------------------------------------------- occupied workspaces

  lemma {:induction false} RecordAllOccupied(f: Findings, paths: seq<Path>, workspace: string)
    requires [] !in paths
    ensures workspace in RecordAll(f, paths).occupied
            <==> workspace in f.occupied || exists p :: p in paths && Occupies(p, workspace)
    decreases |paths|
  {
    hide WindowOf, ActivationOf, ActiveWindowOf, NearestName, InScratch, Fullscreen;
    if paths != [] {
      var f1 := Record(f, Last(paths[0]), ContextOf(paths[0]));
      RecordAllOccupied(f1, paths[1..], workspace);
      assert workspace in f1.occupied <==> workspace in f.occupied || Occupies(paths[0], workspace);
      assert forall p :: p in paths <==> p == paths[0] || p in paths[1..];
    }
  }

  /** A workspace is reported occupied exactly when some path ends in a container that occupies it. */
  lemma OccupiedExactly(root: Node, workspace: string)
    ensures workspace in Inspect(root).occupied <==> exists p :: IsPath(p, root) && Occupies(p, workspace)
  {
    InspectRecordsPaths(root);
    RecordAllOccupied(NOTHING, Paths([], root), workspace);
    forall p ensures p in Paths([], root) <==> IsPath(p, root) { PathsFromTheRoot(root, p); }
  }

  // ---------------------------------------------------------------- the two window inventories

  function WindowsAt(paths: seq<Path>): seq<Window>
    requires [] !in paths
  {
    if paths == [] then [] else Append([], WindowAt(paths[0])) + WindowsAt(paths[1..])
  }

  function ActivationsAt(paths: seq<Path>): seq<WindowInfo>
    requires [] !in paths
  {
    if paths == [] then [] else Append([], ActivationOf(Last(paths[0]))) + ActivationsAt(paths[1..])
  }

  lemma {:induction false} RecordAllInventories(f: Findings, paths: seq<Path>)
    requires [] !in paths
    ensures RecordAll(f, paths).windows == f.windows + WindowsAt(paths)
    ensures RecordAll(f, paths).activation == f.activation + ActivationsAt(paths)
    decreases |paths|
  {
    hide WindowOf, ActivationOf, ActiveWindowOf, NearestName, InScratch, Fullscreen;
    if paths != [] {
      RecordAllInventories(Record(f, Last(paths[0]), ContextOf(paths[0])), paths[1..]);
    }
  }

  lemma InventoriesFollowPaths(root: Node)
    ensures [] !in Paths([], root)
    ensures Inspect(root).windows == WindowsAt(Paths([], root))
    ensures Inspect(root).activation == ActivationsAt(Paths([], root))
  {
    InspectRecordsPaths(root);
    RecordAllInventories(NOTHING, Paths([], root));
  }

  lemma {:induction false} WindowsAtMembers(paths: seq<Path>, w: Window)
    requires [] !in paths
    ensures w in WindowsAt(paths) <==> exists p :: p in paths && WindowAt(p) == Some(w)
  {
    hide WindowOf, Fullscreen;
    if paths != [] {
      assert paths == [paths[0]] + paths[1..];
      WindowsAtMembers(paths[1..], w);
    }
  }

  /**
   The windows reported are exactly the native leaf windows at the end of some path, and one is fullscreen exactly when
   it or a container above it reports mode 1 or 2.
   */
  lemma WindowsExactly(root: Node, w: Window)
    ensures w in Inspect(root).windows
            <==> exists p :: IsPath(p, root) && WindowOf(Last(p), Fullscreen(p)) == Some(w)
    ensures w in Inspect(root).windows ==> exists p ::
              && IsPath(p, root) && WindowOf(Last(p), Fullscreen(p)) == Some(w)
              && (w.fullscreen <==> exists i :: 0 <= i < |p| && FullscreenCon(p[i]))
  {
    InventoriesFollowPaths(root);
    var paths := Paths([], root);
    WindowsAtMembers(paths, w);
    forall p ensures p in paths <==> IsPath(p, root) { PathsFromTheRoot(root, p); }
    if w in Inspect(root).windows {
      var p :| p in paths && WindowAt(p) == Some(w);
      assert IsPath(p, root) && w.fullscreen == Fullscreen(p);
    }
  }

  predicate IsSubsequence<T(==)>(a: seq<T>, b: seq<T>) {
    a == [] || (b != [] && ((a[0] == b[0] && IsSubsequence(a[1..], b[1..])) || IsSubsequence(a, b[1..])))
  }

  /** A window as both inventories identify it: by its identifier and its process. */
  function WindowKeys(windows: seq<Window>): (keys: seq<(string, nat)>)
    ensures |keys| == |windows|
  {
    if windows == [] then [] else [(windows[0].id, windows[0].pid)] + WindowKeys(windows[1..])
  }

  function ActivationKeys(infos: seq<WindowInfo>): (keys: seq<(string, nat)>)
    ensures |keys| == |infos|
  {
    if infos == [] then [] else [(Decimal(infos[0].containerId), infos[0].pid)] + ActivationKeys(infos[1..])
  }

  lemma {:induction false} WindowsAreAmongActivations(paths: seq<Path>)
    requires [] !in paths
    ensures IsSubsequence(WindowKeys(WindowsAt(paths)), ActivationKeys(ActivationsAt(paths)))
  {
    hide PositiveInteger, Decimal, Fullscreen, NativeLeaf;
    if paths != [] {
      WindowsAreAmongActivations(paths[1..]);
      var n := Last(paths[0]);
      var windows, activations := WindowsAt(paths), ActivationsAt(paths);
      if WindowAt(paths[0]).Some? {
        assert windows[1..] == WindowsAt(paths[1..]) && activations[1..] == ActivationsAt(paths[1..]);
        assert WindowKeys(windows)[1..] == WindowKeys(windows[1..]);
        assert ActivationKeys(activations)[1..] == ActivationKeys(activations[1..]);
      } else if ActivationOf(n).Some? {
        assert windows == WindowsAt(paths[1..]) && activations[1..] == ActivationsAt(paths[1..]);
        assert ActivationKeys(activations)[1..] == ActivationKeys(activations[1..]);
      } else {
        assert windows == WindowsAt(paths[1..]) && activations == ActivationsAt(paths[1..]);
      }
    }
  }

  /** The window inventory is, by identifier and process, a subsequence of the activation inventory. */
  lemma WindowInventoryIsSubsequence(root: Node)
    ensures IsSubsequence(WindowKeys(Inspect(root).windows), ActivationKeys(Inspect(root).activation))
  {
    InventoriesFollowPaths(root);
    WindowsAreAmongActivations(Paths([], root));
  }

  // ---------------------------------------------------------------- the active window of each output

  /** The last path in the list that focuses an output. */
  function LastFocus(paths: seq<Path>, output: string): Option<nat> {
    if paths == [] then None
    else
      match LastFocus(paths[1..], output)
      case Some(k) => Some(k + 1)
      case None => if Focuses(paths[0], output) then Some(0) else None
  }

  lemma {:induction false} LastFocusMeaning(paths: seq<Path>, output: string)
    ensures var r := LastFocus(paths, output);
            match r
            case None => forall k :: 0 <= k < |paths| ==> !Focuses(paths[k], output)
            case Some(i) => i < |paths| && Focuses(paths[i], output)
                            && forall k :: i < k < |paths| ==> !Focuses(paths[k], output)
  {
    hide Focuses;
    if paths != [] {
      LastFocusMeaning(paths[1..], output);
      assert forall k :: 0 < k < |paths| ==> paths[k] == paths[1..][k - 1];
    }
  }

  lemma {:induction false} RecordAllActive(f: Findings, paths: seq<Path>, output: string)
    requires [] !in paths
    ensures var active, last := RecordAll(f, paths).active, LastFocus(paths, output);
            match last
            case None => (output in active <==> output in f.active) && (output in active ==> active[output] == f.active[output])
            case Some(i) => i < |paths| && output in active && active[output] == ActiveWindowOf(Last(paths[i]))
    decreases |paths|
  {
    hide WindowOf, ActivationOf, ActiveWindowOf, NearestName, InScratch, Fullscreen;
    if paths != [] {
      RecordAllActive(Record(f, Last(paths[0]), ContextOf(paths[0])), paths[1..], output);
    }
  }

  /** An output shows the last focused container of the walk that occupies a workspace on it, and nothing otherwise. */
  lemma ActiveExactly(root: Node, output: string)
    ensures var active, paths := Inspect(root).active, Paths([], root);
            && (output in active <==> exists p :: IsPath(p, root) && Focuses(p, output))
            && (output in active ==> exists i ::
                  && 0 <= i < |paths| && Focuses(paths[i], output)
                  && (forall k :: i < k < |paths| ==> !Focuses(paths[k], output))
                  && active[output] == ActiveWindowOf(Last(paths[i])))
  {
    hide Focuses;
    InspectRecordsPaths(root);
    var paths := Paths([], root);
    RecordAllActive(NOTHING, paths, output);
    LastFocusMeaning(paths, output);
    forall p ensures p in paths <==> IsPath(p, root) { PathsFromTheRoot(root, p); }
    match LastFocus(paths, output)
    case None =>
    case Some(i) => assert IsPath(paths[i], root);
  }

  // ---------------------------------------------------------------- inspectSwayTree

  class TreeInspector {
    var occupied: set<string>
    var active: map<string, ActiveWindow>
    var activation: seq<WindowInfo>
    var windows: seq<Window>

    ghost function View(): Findings
      reads this
    {
      Findings(occupied, active, activation, windows)
    }

    constructor ()
      ensures View() == NOTHING
    {
      occupied, active, activation, windows := {}, map[], [], [];
    }

    method Observe(node: Node, fullscreen: bool)
      modifies this`windows
      ensures windows == Append(old(windows), WindowOf(node, fullscreen))
    {
      if node.kind == "con" && NativeLeaf(node) && node.appId.Some? && node.shell == "xdg_shell" {
        var pid := PositiveInteger(node.pid, MAX_UINT32);
        if pid.Some? {
          var id := PositiveInteger(node.id, MAX_UINT64);
          if id.Some? {
            windows := windows + [Window(Decimal(id.value), node.name, node.appId.value, fullscreen, pid.value)];
          }
        }
      }
    }

    method Project(node: Node, output: string, workspace: string, project: bool)
      modifies this`occupied, this`active
      ensures View() == old(View()).(
        occupied := if project && workspace != "" && node.kind == "con" && Leaf(node) then old(occupied) + {workspace} else old(occupied),
        active := if project && workspace != "" && node.kind == "con" && Leaf(node) && node.focused && output != ""
                  then old(active)[output := ActiveWindowOf(node)] else old(active))
    {
      if project && Leaf(node) && workspace != "" && node.kind == "con" {
        occupied := occupied + {workspace};
        if node.focused && output != "" {
          var appId := if node.appId.Some? then node.appId.value else "";
          if appId == "" {
            appId := node.windowClass;
          }
          active := active[output := ActiveWindow(appId, node.name)];
        }
      }
    }

    method Inspect(node: Node, output: string, workspace: string, project: bool, fullscreen: bool)
      modifies this
      ensures View() == Walk(old(View()), node, Context(output, workspace, project, fullscreen))
      decreases Size(node), 1
    {
      hide WindowOf, ActiveWindowOf, NativeLeaf, Leaf;
      var nextOutput, nextWorkspace, nextProject := output, workspace, project;
      if node.kind == "output" {
        nextOutput := node.name;
      }
      if node.kind == "workspace" {
        nextWorkspace := node.name;
        if nextWorkspace == SCRATCH_WORKSPACE {
          nextProject := false;
        }
      }
      var validMode := node.fullscreenMode in {Some(0.0), Some(1.0), Some(2.0)};
      var nextFullscreen := fullscreen || (node.kind == "con" && validMode && node.fullscreenMode != Some(0.0));
      ghost var here := Enter(Context(output, workspace, project, fullscreen), node);
      assert here == Context(nextOutput, nextWorkspace, nextProject, nextFullscreen);
      Observe(node, nextFullscreen);
      if node.kind == "con" {
        var pid := PositiveInteger(node.pid, MAX_UINT32);
        var containerId := PositiveInteger(node.id, MAX_UINT64);
        if pid.Some? && containerId.Some? {
          activation := activation + [WindowInfo(pid.value, node.name, containerId.value)];
        }
      }
      Project(node, nextOutput, nextWorkspace, nextProject);
      assert View() == Record(old(View()), node, here);
      InspectAll(Items(node.nodes), nextOutput, nextWorkspace, nextProject, nextFullscreen);
      InspectAll(Items(node.floating), nextOutput, nextWorkspace, nextProject, nextFullscreen);
    }

    /** The inner loop over one child list. */
    method InspectAll(children: seq<Child>, output: string, workspace: string, project: bool, fullscreen: bool)
      modifies this
      ensures View() == WalkAll(old(View()), children, Context(output, workspace, project, fullscreen))
      decreases SizeAll(children), 0
    {
      hide Walk;
      ghost var c := Context(output, workspace, project, fullscreen);
      ghost var start := View();
      for i := 0 to |children|
        invariant WalkAll(View(), children[i..], c) == WalkAll(start, children, c)
        invariant SizeAll(children[i..]) <= SizeAll(children)
      {
        assert children[i..][1..] == children[i + 1..];
        var child := children[i];
        if child.Object? {
          Inspect(child.node, output, workspace, project, fullscreen);
        }
      }
    }
  }
}
