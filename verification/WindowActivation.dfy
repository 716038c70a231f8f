/** Choosing the window that a process lineage and a title hint refer to, as WindowActivation.cpp does. */
module WindowActivation {
  import opened Prelude
  import opened TextSizes

  const MAXIMUM_LINEAGE_ENTRIES := 64
  const MAXIMUM_TITLE_HINT_BYTES := 512

  datatype Request = Request(lineage: seq<nat>, titleHint: string)

  datatype Candidate = Candidate(pid: nat, title: string)

  datatype Outcome = Accepted | InvalidRequest | Unsupported | Disconnected | Missing | Ambiguous | Busy | Failed

  datatype Resolution = Resolution(outcome: Outcome, index: Option<nat>)

  predicate Valid(r: Request) {
    && 0 < |r.lineage| <= MAXIMUM_LINEAGE_ENTRIES
    && Utf8Size(r.titleHint) <= MAXIMUM_TITLE_HINT_BYTES
    && '\0' !in r.titleHint
    && 0 !in r.lineage
  }

  // ---------------------------------------------------------------- what a resolution should be

  /** The first place a process has in the lineage. */
  function Position(lineage: seq<nat>, pid: nat): (k: nat)
    requires pid in lineage
    ensures k < |lineage| && lineage[k] == pid && pid !in lineage[..k]
  {
    if lineage[0] == pid then 0
    else
      var k := Position(lineage[1..], pid);
      assert lineage[..k + 1] == [lineage[0]] + lineage[1..][..k];
      k + 1
  }

  predicate InLineage(r: Request, cs: seq<Candidate>, i: int) {
    0 <= i < |cs| && cs[i].pid in r.lineage
  }

  /** No candidate belongs to an earlier process of the lineage. */
  ghost predicate Preferred(r: Request, cs: seq<Candidate>, i: int) {
    && InLineage(r, cs, i)
    && forall j :: InLineage(r, cs, j) ==> Position(r.lineage, cs[i].pid) <= Position(r.lineage, cs[j].pid)
  }

  ghost predicate Titled(r: Request, cs: seq<Candidate>, i: int) {
    Preferred(r, cs, i) && cs[i].title == r.titleHint
  }

  ghost predicate Single(r: Request, cs: seq<Candidate>, i: int) {
    Preferred(r, cs, i) && forall j :: Preferred(r, cs, j) ==> j == i
  }

  ghost predicate SingleTitled(r: Request, cs: seq<Candidate>, i: int) {
    Titled(r, cs, i) && forall j :: Titled(r, cs, j) ==> j == i
  }

  ghost predicate AnyPreferred(r: Request, cs: seq<Candidate>) {
    exists i :: Preferred(r, cs, i)
  }

  ghost predicate AnySingle(r: Request, cs: seq<Candidate>) {
    exists i :: Single(r, cs, i)
  }

  ghost predicate AnyTitled(r: Request, cs: seq<Candidate>) {
    exists i :: Titled(r, cs, i)
  }

  /** The candidate a valid request selects: alone at the preferred process, or alone there with the given title. */
  ghost predicate Selected(r: Request, cs: seq<Candidate>, i: int) {
    Single(r, cs, i) || (!AnySingle(r, cs) && r.titleHint != "" && SingleTitled(r, cs, i))
  }

  /** Nothing matches: no candidate in the lineage, or several at the preferred process and none with the given title. */
  ghost predicate NothingMatches(r: Request, cs: seq<Candidate>) {
    !AnyPreferred(r, cs) || (!AnySingle(r, cs) && r.titleHint != "" && !AnyTitled(r, cs))
  }

  ghost predicate AnySelected(r: Request, cs: seq<Candidate>) {
    exists i :: Selected(r, cs, i)
  }

  ghost predicate Resolves(r: Request, cs: seq<Candidate>, result: Resolution) {
    match result.outcome
    case InvalidRequest => !Valid(r) && result.index == None
    case Accepted => Valid(r) && result.index.Some? && Selected(r, cs, result.index.value)
    case Missing => Valid(r) && result.index == None && NothingMatches(r, cs)
    case Ambiguous => Valid(r) && result.index == None && !NothingMatches(r, cs) && !AnySelected(r, cs)
    case _ => false
  }

  /** What a request may look like: UTF-8 bounds UTF-16, so of the two size tests only this one matters. */
  lemma ValidExactly(r: Request)
    ensures Valid(r) <==>
            && 1 <= |r.lineage| <= 64 && (forall k :: 0 <= k < |r.lineage| ==> r.lineage[k] != 0)
            && Utf8Size(r.titleHint) <= 512 && Utf16Size(r.titleHint) <= 512
            && (forall k :: 0 <= k < |r.titleHint| ==> r.titleHint[k] != '\0')
  {
    UnitsBoundedByBytes(r.titleHint);
  }

  /** Candidate j is a window of the k-th process of the lineage. */
  predicate Owns(r: Request, cs: seq<Candidate>, k: nat, j: int) {
    k < |r.lineage| && 0 <= j < |cs| && cs[j].pid == r.lineage[k]
  }

  /** The k-th process of the lineage is the first one with a window. */
  ghost predicate FirstOwner(r: Request, cs: seq<Candidate>, k: nat) {
    (exists j :: Owns(r, cs, k, j)) && forall m: nat, j :: m < k ==> !Owns(r, cs, m, j)
  }

  ghost predicate OnlyOwned(r: Request, cs: seq<Candidate>, k: nat, i: int) {
    Owns(r, cs, k, i) && forall j :: Owns(r, cs, k, j) ==> j == i
  }

  predicate OwnsTitled(r: Request, cs: seq<Candidate>, k: nat, j: int) {
    Owns(r, cs, k, j) && cs[j].title == r.titleHint
  }

  ghost predicate OnlyTitled(r: Request, cs: seq<Candidate>, k: nat, i: int) {
    OwnsTitled(r, cs, k, i) && forall j :: OwnsTitled(r, cs, k, j) ==> j == i
  }

  /** The window chosen among those of one process: the only one, or the only one with the title asked for. */
  ghost predicate Chosen(r: Request, cs: seq<Candidate>, k: nat, result: Resolution) {
    if exists i :: OnlyOwned(r, cs, k, i) then
      result.outcome == Accepted && result.index.Some? && OnlyOwned(r, cs, k, result.index.value)
    else if r.titleHint == "" then result == Resolution(Ambiguous, None)
    else if forall i :: !OwnsTitled(r, cs, k, i) then result == Resolution(Missing, None)
    else if exists i :: OnlyTitled(r, cs, k, i) then
      result.outcome == Accepted && result.index.Some? && OnlyTitled(r, cs, k, result.index.value)
    else result == Resolution(Ambiguous, None)
  }

  lemma PositionIsFirst(lineage: seq<nat>, k: nat)
    requires k < |lineage|
    ensures Position(lineage, lineage[k]) <= k
  {
    var p := Position(lineage, lineage[k]);
    assert forall m :: 0 <= m < p && m < |lineage| ==> lineage[..p][m] == lineage[m];
  }

  lemma PreferredAreOwned(r: Request, cs: seq<Candidate>, k: nat)
    requires FirstOwner(r, cs, k)
    ensures forall j :: Preferred(r, cs, j) <==> Owns(r, cs, k, j)
  {
    forall j | InLineage(r, cs, j) ensures k <= Position(r.lineage, cs[j].pid) && (Owns(r, cs, k, j) <==> Position(r.lineage, cs[j].pid) == k) {
      assert Owns(r, cs, Position(r.lineage, cs[j].pid), j);
      PositionIsFirst(r.lineage, k);
    }
    var i :| Owns(r, cs, k, i);
    assert InLineage(r, cs, i);
  }

  lemma {:induction false} SomeFirstOwner(r: Request, cs: seq<Candidate>, j: int, k: nat) returns (first: nat)
    requires Owns(r, cs, k, j)
    ensures FirstOwner(r, cs, first)
    decreases k
  {
    if m: nat, i :| m < k && Owns(r, cs, m, i) {
      first := SomeFirstOwner(r, cs, i, m);
    } else {
      first := k;
    }
  }

  /** A resolution in terms of processes and titles only: the windows of the first process that has any decide. */
  lemma ResolvedByProcessAndTitle(r: Request, cs: seq<Candidate>, result: Resolution)
    requires Resolves(r, cs, result)
    ensures !Valid(r) ==> result == Resolution(InvalidRequest, None)
    ensures Valid(r) && (forall j :: 0 <= j < |cs| ==> cs[j].pid !in r.lineage) ==> result == Resolution(Missing, None)
    ensures Valid(r) ==> forall k: nat :: FirstOwner(r, cs, k) ==> Chosen(r, cs, k, result)
    ensures (exists j :: 0 <= j < |cs| && cs[j].pid in r.lineage) ==> exists k: nat :: FirstOwner(r, cs, k)
  {
    hide Preferred, FirstOwner;
    if Valid(r) {
      NobodyPreferred(r, cs);
      forall k: nat | FirstOwner(r, cs, k) ensures Chosen(r, cs, k, result) {
        OwnedDecide(r, cs, k, result);
      }
    }
    if j :| 0 <= j < |cs| && cs[j].pid in r.lineage {
      var k :| 0 <= k < |r.lineage| && r.lineage[k] == cs[j].pid;
      var first := SomeFirstOwner(r, cs, j, k);
    }
  }

  lemma NobodyPreferred(r: Request, cs: seq<Candidate>)
    ensures (forall j :: 0 <= j < |cs| ==> cs[j].pid !in r.lineage) ==> forall j :: !Preferred(r, cs, j)
  {}

  /** The notions of the specification, for the windows of the first process that has any. */
  lemma OwnersAre(r: Request, cs: seq<Candidate>, k: nat)
    requires FirstOwner(r, cs, k)
    ensures AnyPreferred(r, cs)
    ensures forall i :: Single(r, cs, i) <==> OnlyOwned(r, cs, k, i)
    ensures forall i :: Titled(r, cs, i) <==> OwnsTitled(r, cs, k, i)
    ensures forall i :: SingleTitled(r, cs, i) <==> OnlyTitled(r, cs, k, i)
  {
    PreferredAreOwned(r, cs, k);
    var first :| Owns(r, cs, k, first);
    assert Preferred(r, cs, first);
    hide Preferred, Owns;
    forall i ensures Titled(r, cs, i) <==> OwnsTitled(r, cs, k, i) {}
  }

  lemma OwnedDecide(r: Request, cs: seq<Candidate>, k: nat, result: Resolution)
    requires Resolves(r, cs, result) && Valid(r) && FirstOwner(r, cs, k)
    ensures Chosen(r, cs, k, result)
  {
    hide Preferred, Valid, FirstOwner, OnlyOwned, OwnsTitled, OnlyTitled, Single, Titled, SingleTitled, AnyPreferred;
    OwnersAre(r, cs, k);
    if i :| SingleTitled(r, cs, i) {
      assert Titled(r, cs, i) by { TitledAtAll(r, cs, i); }
      assert r.titleHint != "" && !AnySingle(r, cs) ==> Selected(r, cs, i);
    }
    if i :| Single(r, cs, i) {
      assert Selected(r, cs, i);
    }
  }

  lemma TitledAtAll(r: Request, cs: seq<Candidate>, i: int)
    requires SingleTitled(r, cs, i)
    ensures Titled(r, cs, i)
  {}

  /** The specification allows one resolution only, so acceptance, absence and ambiguity are each decided exactly. */
  lemma ResolutionIsUnique(r: Request, cs: seq<Candidate>, a: Resolution, b: Resolution)
    requires Resolves(r, cs, a) && Resolves(r, cs, b)
    ensures a == b
  {
    hide Preferred;
    if a.outcome == Accepted {
      var i := a.index.value;
      assert AnySelected(r, cs) && AnyPreferred(r, cs) && (SingleTitled(r, cs, i) ==> AnyTitled(r, cs));
    }
    if b.outcome == Accepted {
      var i := b.index.value;
      assert AnySelected(r, cs) && AnyPreferred(r, cs) && (SingleTitled(r, cs, i) ==> AnyTitled(r, cs));
    }
  }

  // ---------------------------------------------------------------- the resolver

  method IsValid(r: Request) returns (ok: bool)
    ensures ok <==> Valid(r)
  {
    UnitsBoundedByBytes(r.titleHint);
    if |r.lineage| == 0 || |r.lineage| > MAXIMUM_LINEAGE_ENTRIES || Utf16Size(r.titleHint) > MAXIMUM_TITLE_HINT_BYTES
       || Utf8Size(r.titleHint) > MAXIMUM_TITLE_HINT_BYTES || '\0' in r.titleHint {
      return false;
    }
    return forall i :: 0 <= i < |r.lineage| ==> r.lineage[i] != 0;
  }

  method Resolve(r: Request, cs: seq<Candidate>) returns (result: Resolution)
    ensures Resolves(r, cs, result)
  {
    var valid := IsValid(r);
    if !valid {
      return Resolution(InvalidRequest, None);
    }
    var positions := LineagePositions(r.lineage);
    var matches := PreferredMatches(r, cs, positions);
    if |matches| == 0 {
      return Resolution(Missing, None);
    }
    if |matches| == 1 {
      assert Single(r, cs, matches[0]);
      return Resolution(Accepted, Some(matches[0]));
    }
    SeveralMeansNoSingle(r, cs, matches);
    if r.titleHint == "" {
      assert forall i :: !Selected(r, cs, i);
      assert AnyPreferred(r, cs) by { assert Preferred(r, cs, matches[0]); }
      return Resolution(Ambiguous, None);
    }
    result := AmongTitled(r, cs, matches);
  }

  method LineagePositions(lineage: seq<nat>) returns (positions: map<nat, nat>)
    ensures forall pid :: pid in positions <==> pid in lineage
    ensures forall pid :: pid in positions ==> positions[pid] == Position(lineage, pid)
  {
    positions := map[];
    for k := 0 to |lineage|
      invariant forall pid :: pid in positions <==> pid in lineage[..k]
      invariant forall pid :: pid in positions ==> positions[pid] == Position(lineage, pid)
    {
      if lineage[k] !in positions {
        PositionOfFirst(lineage, k);
        positions := positions[lineage[k] := k];
      }
    }
  }

  lemma PositionOfFirst(lineage: seq<nat>, k: nat)
    requires k < |lineage| && lineage[k] !in lineage[..k]
    ensures Position(lineage, lineage[k]) == k
  {
    var p := Position(lineage, lineage[k]);
    assert forall i :: 0 <= i < k ==> lineage[..k][i] == lineage[i];
    assert forall i :: 0 <= i < p ==> lineage[..p][i] == lineage[i];
  }

  ghost predicate Ascending(s: seq<nat>) {
    forall i, j :: 0 <= i < j < |s| ==> s[i] < s[j]
  }

  /** The best position among the first `n` candidates, and the candidates that have it. */
  ghost predicate Scanned(r: Request, cs: seq<Candidate>, n: nat, preferred: Option<nat>, matches: seq<nat>) {
    && n <= |cs|
    && Ascending(matches) && (forall k :: 0 <= k < |matches| ==> matches[k] < n)
    && match preferred
       case None => matches == [] && forall j :: 0 <= j < n ==> !InLineage(r, cs, j)
       case Some(best) =>
         && matches != []
         && (forall k :: 0 <= k < |matches| ==> InLineage(r, cs, matches[k]) && Position(r.lineage, cs[matches[k]].pid) == best)
         && (forall j :: 0 <= j < n && InLineage(r, cs, j) ==>
               best <= Position(r.lineage, cs[j].pid) && (best == Position(r.lineage, cs[j].pid) ==> j in matches))
  }

  lemma ScanOneMore(r: Request, cs: seq<Candidate>, n: nat, preferred: Option<nat>, matches: seq<nat>)
    requires Scanned(r, cs, n, preferred, matches) && n < |cs|
    ensures !InLineage(r, cs, n) ==> Scanned(r, cs, n + 1, preferred, matches)
    ensures InLineage(r, cs, n) ==>
              var p := Position(r.lineage, cs[n].pid);
              if preferred == None || p < preferred.value then Scanned(r, cs, n + 1, Some(p), [n])
              else Scanned(r, cs, n + 1, preferred, if p == preferred.value then matches + [n] else matches)
  {
    hide Position;
    if InLineage(r, cs, n) {
      var p := Position(r.lineage, cs[n].pid);
      if preferred == None || p < preferred.value {
        ScanReplaces(r, cs, n, preferred, matches);
      } else if p == preferred.value {
        ScanExtends(r, cs, n, preferred, matches);
      }
    }
  }

  lemma ScanReplaces(r: Request, cs: seq<Candidate>, n: nat, preferred: Option<nat>, matches: seq<nat>)
    requires Scanned(r, cs, n, preferred, matches) && InLineage(r, cs, n)
    requires preferred == None || Position(r.lineage, cs[n].pid) < preferred.value
    ensures Scanned(r, cs, n + 1, Some(Position(r.lineage, cs[n].pid)), [n])
  {
    hide Position;
    var p := Position(r.lineage, cs[n].pid);
    forall j | 0 <= j < n + 1 && InLineage(r, cs, j)
      ensures p <= Position(r.lineage, cs[j].pid) && (p == Position(r.lineage, cs[j].pid) ==> j in [n])
    {}
  }

  lemma ScanExtends(r: Request, cs: seq<Candidate>, n: nat, preferred: Option<nat>, matches: seq<nat>)
    requires Scanned(r, cs, n, preferred, matches) && InLineage(r, cs, n)
    requires preferred == Some(Position(r.lineage, cs[n].pid))
    ensures Scanned(r, cs, n + 1, preferred, matches + [n])
  {
    hide Position;
    var longer := matches + [n];
    assert forall k :: 0 <= k < |matches| ==> longer[k] == matches[k];
    forall j | 0 <= j < n + 1 && InLineage(r, cs, j)
      ensures preferred.value <= Position(r.lineage, cs[j].pid)
      ensures preferred.value == Position(r.lineage, cs[j].pid) ==> j in longer
    {
      assert longer[|matches|] == n;
    }
  }

  lemma ScannedAll(r: Request, cs: seq<Candidate>, preferred: Option<nat>, matches: seq<nat>)
    requires Scanned(r, cs, |cs|, preferred, matches)
    ensures Ascending(matches) && forall i :: i in matches <==> Preferred(r, cs, i)
  {
    hide Position;
    if preferred.Some? {
      assert InLineage(r, cs, matches[0]);
    }
  }

  /** All candidates of the lineage's earliest process that has any, in candidate order. */
  method PreferredMatches(r: Request, cs: seq<Candidate>, positions: map<nat, nat>) returns (matches: seq<nat>)
    requires forall pid :: pid in positions <==> pid in r.lineage
    requires forall pid :: pid in positions ==> positions[pid] == Position(r.lineage, pid)
    ensures Ascending(matches) && forall i :: i in matches <==> Preferred(r, cs, i)
  {
    hide Position, Scanned, Ascending;
    var preferred: Option<nat> := None;
    matches := [];
    NothingScanned(r, cs);
    for index := 0 to |cs|
      invariant Scanned(r, cs, index, preferred, matches)
    {
      ScanOneMore(r, cs, index, preferred, matches);
      var pid := cs[index].pid;
      if pid !in positions {
        continue;
      }
      if preferred == None || positions[pid] < preferred.value {
        preferred := Some(positions[pid]);
        matches := [index];
      } else if positions[pid] == preferred.value {
        matches := matches + [index];
      }
    }
    ScannedAll(r, cs, preferred, matches);
  }

  lemma NothingScanned(r: Request, cs: seq<Candidate>)
    ensures Scanned(r, cs, 0, None, [])
  {}

  lemma SeveralMeansNoSingle(r: Request, cs: seq<Candidate>, matches: seq<nat>)
    requires |matches| > 1 && Ascending(matches) && forall i :: i in matches <==> Preferred(r, cs, i)
    ensures !AnySingle(r, cs) && AnyPreferred(r, cs)
  {
    assert matches[0] in matches && matches[1] in matches && matches[0] < matches[1];
  }

  lemma PreferredInRange(r: Request, cs: seq<Candidate>)
    ensures forall i :: Preferred(r, cs, i) ==> 0 <= i < |cs|
  {}

  method AmongTitled(r: Request, cs: seq<Candidate>, matches: seq<nat>) returns (result: Resolution)
    requires Valid(r) && r.titleHint != "" && !AnySingle(r, cs) && AnyPreferred(r, cs)
    requires Ascending(matches) && forall i :: i in matches <==> Preferred(r, cs, i)
    ensures Resolves(r, cs, result)
  {
    hide Preferred;
    var titled: Option<nat> := None;
    PreferredInRange(r, cs);
    forall k | 0 <= k < |matches| ensures Preferred(r, cs, matches[k]) && matches[k] < |cs| {
      assert matches[k] in matches;
    }
    for k := 0 to |matches|
      invariant titled == None ==> forall j :: 0 <= j < k ==> cs[matches[j]].title != r.titleHint
      invariant titled.Some? ==> Titled(r, cs, titled.value)
      invariant titled.Some? ==> titled.value in matches[..k]
      invariant titled.Some? ==> forall j :: 0 <= j < k && cs[matches[j]].title == r.titleHint ==> matches[j] == titled.value
    {
      assert matches[k] in matches;
      var index := matches[k];
      if cs[index].title != r.titleHint {
        continue;
      }
      assert Titled(r, cs, index);
      if titled.Some? {
        assert titled.value != index;
        assert forall i :: !SingleTitled(r, cs, i) by {
          forall i ensures !SingleTitled(r, cs, i) { assert Titled(r, cs, index) && Titled(r, cs, titled.value); }
        }
        assert !AnySelected(r, cs) && AnyTitled(r, cs);
        return Resolution(Ambiguous, None);
      }
      titled := Some(index);
    }
    if titled == None {
      assert !AnyTitled(r, cs);
      return Resolution(Missing, None);
    }
    assert SingleTitled(r, cs, titled.value);
    return Resolution(Accepted, titled);
  }

  // ---------------------------------------------------------------- candidate order does not matter

  /** `move` sends each index of the one list to the index of the same candidate in the other, and `back` returns. */
  ghost predicate Rearranges(move: seq<nat>, back: seq<nat>, from: seq<Candidate>, to: seq<Candidate>) {
    && |move| == |from| && |back| == |to|
    && (forall i :: 0 <= i < |move| ==> move[i] < |to| && to[move[i]] == from[i] && back[move[i]] == i)
    && (forall j :: 0 <= j < |back| ==> back[j] < |from| && from[back[j]] == to[j] && move[back[j]] == j)
  }

  lemma PreferredMoves(r: Request, from: seq<Candidate>, to: seq<Candidate>, move: seq<nat>, back: seq<nat>)
    requires Rearranges(move, back, from, to)
    ensures forall i :: Preferred(r, from, i) ==> Preferred(r, to, move[i])
  {
    forall i | Preferred(r, from, i) ensures Preferred(r, to, move[i]) {
      forall j | InLineage(r, to, j) ensures Position(r.lineage, to[move[i]].pid) <= Position(r.lineage, to[j].pid) {
        assert InLineage(r, from, back[j]);
      }
    }
  }

  lemma SinglesMove(r: Request, from: seq<Candidate>, to: seq<Candidate>, move: seq<nat>, back: seq<nat>)
    requires Rearranges(move, back, from, to)
    ensures forall i :: Single(r, from, i) ==> 0 <= i < |move| && Single(r, to, move[i])
    ensures forall i :: SingleTitled(r, from, i) ==> 0 <= i < |move| && SingleTitled(r, to, move[i])
    ensures AnyPreferred(r, from) ==> AnyPreferred(r, to)
    ensures AnySingle(r, from) ==> AnySingle(r, to)
    ensures AnyTitled(r, from) ==> AnyTitled(r, to)
  {
    PreferredMoves(r, from, to, move, back);
    PreferredMoves(r, to, from, back, move);
    PreferredInRange(r, from);
    PreferredInRange(r, to);
    hide Preferred;
    forall i | Titled(r, from, i) ensures Titled(r, to, move[i]) {}
    forall j | Titled(r, to, j) ensures Titled(r, from, back[j]) {}
    forall i | Single(r, from, i) ensures Single(r, to, move[i]) {
      forall j | Preferred(r, to, j) ensures j == move[i] { assert Preferred(r, from, back[j]); }
    }
    forall i | SingleTitled(r, from, i) ensures SingleTitled(r, to, move[i]) {
      forall j | Titled(r, to, j) ensures j == move[i] { assert Titled(r, from, back[j]); }
    }
  }

  function Moved(result: Resolution, move: seq<nat>): Resolution {
    if result.index.Some? && result.index.value < |move| then result.(index := Some(move[result.index.value])) else result
  }

  lemma SelectedMoves(r: Request, from: seq<Candidate>, to: seq<Candidate>, move: seq<nat>, back: seq<nat>)
    requires Rearranges(move, back, from, to)
    ensures forall i :: Selected(r, from, i) ==> 0 <= i < |move| && Selected(r, to, move[i])
    ensures AnySelected(r, from) ==> AnySelected(r, to)
    ensures NothingMatches(r, from) <==> NothingMatches(r, to)
  {
    SinglesMove(r, from, to, move, back);
    SinglesMove(r, to, from, back, move);
    hide Rearranges, Single, SingleTitled, AnySingle, AnyTitled, AnyPreferred;
    forall i | Selected(r, from, i) ensures 0 <= i < |move| && Selected(r, to, move[i]) {}
  }

  /** Rearranging the candidates rearranges the choice and changes nothing else. */
  lemma CandidateOrderIsIrrelevant(
      r: Request, from: seq<Candidate>, to: seq<Candidate>, move: seq<nat>, back: seq<nat>, result: Resolution)
    requires Rearranges(move, back, from, to) && Resolves(r, from, result)
    ensures Resolves(r, to, Moved(result, move))
  {
    SelectedMoves(r, from, to, move, back);
    SelectedMoves(r, to, from, back, move);
    hide Rearranges, Selected, NothingMatches, AnySelected;
  }

  // ---------------------------------------------------------------- repeated lineage entries do not matter

  /** Two lineages that name the same processes in the same order of first appearance. */
  ghost predicate SameOrder(a: seq<nat>, b: seq<nat>) {
    && (forall p :: p in a <==> p in b)
    && (forall p, q :: p in a && q in a ==> (Position(a, p) <= Position(a, q) <==> Position(b, p) <= Position(b, q)))
  }

  lemma PositionInFront(before: seq<nat>, more: seq<nat>, p: nat)
    requires p in before
    ensures Position(before + more, p) == Position(before, p)
  {
    hide Position;
    var k, all := Position(before, p), before + more;
    assert all[k] == p && all[..k] == before[..k];
    PositionOfFirst(all, k);
  }

  lemma PositionBehind(before: seq<nat>, after: seq<nat>, p: nat)
    requires p in after && p !in before
    ensures Position(before + after, p) == |before| + Position(after, p)
  {
    hide Position;
    var k, all := Position(after, p), before + after;
    assert all[|before| + k] == p && all[..|before| + k] == before + after[..k];
    PositionOfFirst(all, |before| + k);
  }

  /** Writing a process again after its first place keeps the order. */
  lemma RepetitionKeepsOrder(before: seq<nat>, pid: nat, after: seq<nat>)
    requires pid in before
    ensures SameOrder(before + after, before + [pid] + after)
  {
    hide Position;
    var a, b := before + after, before + [pid] + after;
    assert b == before + ([pid] + after);
    assert forall p :: p in a <==> p in before || p in after;
    assert forall p :: p in b <==> p in before || p in after;
    forall p | p in a ensures Position(b, p) == if p in before then Position(before, p) else Position(after, p) + |before| + 1
                      ensures Position(a, p) == if p in before then Position(before, p) else Position(after, p) + |before|
    {
      if p in before {
        PositionInFront(before, after, p);
        PositionInFront(before, [pid] + after, p);
      } else {
        PositionBehind(before, after, p);
        PositionBehind(before + [pid], after, p);
      }
    }
    forall p | p in before ensures Position(before, p) < |before| { PositionBounded(before, p); }
  }

  lemma PositionBounded(lineage: seq<nat>, p: nat)
    requires p in lineage
    ensures Position(lineage, p) < |lineage|
  {}

  lemma SameOrderPreferred(r: Request, s: Request, cs: seq<Candidate>, i: int)
    requires SameOrder(r.lineage, s.lineage)
    ensures Preferred(r, cs, i) <==> Preferred(s, cs, i)
  {
    forall j ensures InLineage(r, cs, j) <==> InLineage(s, cs, j) {}
    if InLineage(r, cs, i) {
      forall j | InLineage(r, cs, j)
        ensures Position(r.lineage, cs[i].pid) <= Position(r.lineage, cs[j].pid)
                <==> Position(s.lineage, cs[i].pid) <= Position(s.lineage, cs[j].pid)
      {}
    }
  }

  /** Requests that differ only in repeated lineage entries are resolved alike, as long as both are acceptable. */
  lemma RepetitionIsIrrelevant(r: Request, s: Request, cs: seq<Candidate>, result: Resolution)
    requires SameOrder(r.lineage, s.lineage) && r.titleHint == s.titleHint && Valid(r) && Valid(s)
    ensures Resolves(r, cs, result) <==> Resolves(s, cs, result)
  {
    forall i
      ensures Preferred(r, cs, i) <==> Preferred(s, cs, i)
      ensures Titled(r, cs, i) <==> Titled(s, cs, i)
    {
      SameOrderPreferred(r, s, cs, i);
    }
    SameChoices(r, s, cs);
  }

  lemma SameChoices(r: Request, s: Request, cs: seq<Candidate>)
    requires r.titleHint == s.titleHint
    requires forall i :: Preferred(r, cs, i) <==> Preferred(s, cs, i)
    ensures AnyPreferred(r, cs) <==> AnyPreferred(s, cs)
    ensures AnySingle(r, cs) <==> AnySingle(s, cs)
    ensures AnyTitled(r, cs) <==> AnyTitled(s, cs)
    ensures forall i :: Selected(r, cs, i) <==> Selected(s, cs, i)
  {
    hide Preferred;
    assert forall i :: Titled(r, cs, i) <==> Titled(s, cs, i);
    assert forall i :: Single(r, cs, i) <==> Single(s, cs, i);
    assert forall i :: SingleTitled(r, cs, i) <==> SingleTitled(s, cs, i);
    assert forall i :: Selected(r, cs, i) <==> Selected(s, cs, i);
  }
}
