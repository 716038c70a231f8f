/** The bounded in-place propagation along crypto backing devices at the end of UDisks2Backend::publish. */
module BackingChain {
  import opened Prelude
  import opened StorageTypes

  // ---------------------------------------------------------------- chains of indices

  /** `next[i]` is the volume that volume i is backed by. */
  type Links = seq<Option<nat>>

  predicate ValidLinks(next: Links) {
    forall i :: 0 <= i < |next| && next[i].Some? ==> next[i].value < |next|
  }

  /** The index reached from i after k hops, if the chain is that long. */
  ghost function Hop(next: Links, i: nat, k: nat): (r: Option<nat>)
    requires ValidLinks(next) && i < |next|
    ensures r.Some? ==> r.value < |next|
    decreases k
  {
    if k == 0 then Some(i)
    else if next[i].None? then None
    else Hop(next, next[i].value, k - 1)
  }

  /** The first marked index on the chain from i is k hops away. */
  ghost predicate FirstMark(next: Links, mark: seq<bool>, i: nat, k: nat)
    requires ValidLinks(next) && |mark| == |next| && i < |next|
    decreases k
  {
    if mark[i] then k == 0
    else k > 0 && next[i].Some? && FirstMark(next, mark, next[i].value, k - 1)
  }

  lemma {:induction false} FirstMarkUnique(next: Links, mark: seq<bool>, i: nat, k: nat, k': nat)
    requires ValidLinks(next) && |mark| == |next| && i < |next|
    requires FirstMark(next, mark, i, k) && FirstMark(next, mark, i, k')
    ensures k == k'
    decreases k
  {
    if !mark[i] {
      FirstMarkUnique(next, mark, next[i].value, k - 1, k' - 1);
    }
  }

  /** FirstMark says what its name says: hop k is marked and no earlier hop is. */
  lemma FirstMarkMeaning(next: Links, mark: seq<bool>, i: nat, k: nat)
    requires ValidLinks(next) && |mark| == |next| && i < |next|
    ensures FirstMark(next, mark, i, k) <==>
            MarkedAt(next, mark, i, k) && forall k' :: 0 <= k' < k ==> ClearAt(next, mark, i, k')
  {
    if FirstMark(next, mark, i, k) {
      FirstMarkIsFirst(next, mark, i, k);
    }
    if MarkedAt(next, mark, i, k) && forall k' :: 0 <= k' < k ==> ClearAt(next, mark, i, k') {
      FirstIsFirstMark(next, mark, i, k);
    }
  }

  ghost predicate MarkedAt(next: Links, mark: seq<bool>, i: nat, k: nat)
    requires ValidLinks(next) && |mark| == |next| && i < |next|
  {
    Hop(next, i, k).Some? && mark[Hop(next, i, k).value]
  }

  ghost predicate ClearAt(next: Links, mark: seq<bool>, i: nat, k: nat)
    requires ValidLinks(next) && |mark| == |next| && i < |next|
  {
    Hop(next, i, k).Some? && !mark[Hop(next, i, k).value]
  }

  lemma {:induction false} FirstMarkIsFirst(next: Links, mark: seq<bool>, i: nat, k: nat)
    requires ValidLinks(next) && |mark| == |next| && i < |next|
    requires FirstMark(next, mark, i, k)
    ensures MarkedAt(next, mark, i, k) && forall k' :: 0 <= k' < k ==> ClearAt(next, mark, i, k')
    decreases k
  {
    if k > 0 {
      FirstMarkIsFirst(next, mark, next[i].value, k - 1);
      forall k' | 0 <= k' < k ensures ClearAt(next, mark, i, k') {
        if k' > 0 { assert ClearAt(next, mark, next[i].value, k' - 1); }
      }
    }
  }

  lemma {:induction false} FirstIsFirstMark(next: Links, mark: seq<bool>, i: nat, k: nat)
    requires ValidLinks(next) && |mark| == |next| && i < |next|
    requires MarkedAt(next, mark, i, k) && forall k' :: 0 <= k' < k ==> ClearAt(next, mark, i, k')
    ensures FirstMark(next, mark, i, k)
    decreases k
  {
    if k > 0 {
      assert ClearAt(next, mark, i, 0);
      forall k' | 0 <= k' < k - 1 ensures ClearAt(next, mark, next[i].value, k') {
        assert ClearAt(next, mark, i, k' + 1);
      }
      FirstIsFirstMark(next, mark, next[i].value, k - 1);
    }
  }

  /** A marked index anywhere on the chain means there is a first one. */
  lemma {:induction false} MarkedHasFirst(next: Links, mark: seq<bool>, i: nat, k: nat) returns (first: nat)
    requires ValidLinks(next) && |mark| == |next| && i < |next|
    requires Hop(next, i, k).Some? && mark[Hop(next, i, k).value]
    ensures FirstMark(next, mark, i, first)
    decreases k
  {
    if mark[i] {
      first := 0;
    } else {
      first := MarkedHasFirst(next, mark, next[i].value, k - 1);
      first := first + 1;
    }
  }

  /** The indices visited on the way to the first mark. */
  ghost function Visited(next: Links, mark: seq<bool>, i: nat, k: nat): (r: seq<nat>)
    requires ValidLinks(next) && |mark| == |next| && i < |next|
    requires FirstMark(next, mark, i, k)
    ensures |r| == k + 1
    ensures forall a :: 0 <= a <= k ==> r[a] < |next| && FirstMark(next, mark, r[a], k - a)
    decreases k
  {
    if k == 0 then [i] else [i] + Visited(next, mark, next[i].value, k - 1)
  }

  /** Pigeonhole: the walk to the first mark never repeats an index, so it is shorter than the list. */
  lemma FirstMarkBounded(next: Links, mark: seq<bool>, i: nat, k: nat)
    requires ValidLinks(next) && |mark| == |next| && i < |next|
    requires FirstMark(next, mark, i, k)
    ensures k < |next|
  {
    var visited := Visited(next, mark, i, k);
    forall a, b | 0 <= a < b < |visited| ensures visited[a] != visited[b] {
      if visited[a] == visited[b] {
        FirstMarkUnique(next, mark, visited[a], k - a, k - b);
      }
    }
    Pigeonhole(visited, |next|);
  }

  // ---------------------------------------------------------------- volumes

  predicate UniqueIds(v: seq<Volume>) {
    forall i, j :: 0 <= i < j < |v| ==> v[i].id != v[j].id
  }

  ghost function BackingOf(v: seq<Volume>, i: nat): (r: Option<nat>)
    requires i < |v|
    ensures r.Some? ==> r.value < |v| && v[i].cryptoBackingId != "" && v[r.value].id == v[i].cryptoBackingId
    ensures r.None? ==> v[i].cryptoBackingId == "" || forall j :: 0 <= j < |v| ==> v[j].id != v[i].cryptoBackingId
  {
    if v[i].cryptoBackingId != "" && exists j :: 0 <= j < |v| && v[j].id == v[i].cryptoBackingId then
      var j :| 0 <= j < |v| && v[j].id == v[i].cryptoBackingId;
      Some(j)
    else None
  }

  ghost function LinksOf(v: seq<Volume>): (r: Links)
    ensures |r| == |v| && ValidLinks(r)
    ensures forall i :: 0 <= i < |v| ==> r[i] == BackingOf(v, i)
  {
    seq(|v|, i requires 0 <= i < |v| => BackingOf(v, i))
  }

  ghost function Owned(v: seq<Volume>): (r: seq<bool>)
    ensures |r| == |v| && forall i :: 0 <= i < |v| ==> (r[i] <==> v[i].driveId != "")
  {
    seq(|v|, i requires 0 <= i < |v| => v[i].driveId != "")
  }

  ghost function Looped(v: seq<Volume>): (r: seq<bool>)
    ensures |r| == |v| && forall i :: 0 <= i < |v| ==> (r[i] <==> v[i].loop)
  {
    seq(|v|, i requires 0 <= i < |v| => v[i].loop)
  }

  /** d is the drive of the nearest volume on i's backing chain (i included) that names one, else empty. */
  ghost predicate NearestDrive(v: seq<Volume>, i: nat, d: Id)
    requires i < |v|
  {
    var next := LinksOf(v);
    if d == "" then forall k: nat :: !FirstMark(next, Owned(v), i, k)
    else exists k: nat :: FirstMark(next, Owned(v), i, k) && Hop(next, i, k).Some? && v[Hop(next, i, k).value].driveId == d
  }

  /** Some volume on i's backing chain (i included) is a loop device. */
  ghost predicate LoopOnChain(v: seq<Volume>, i: nat)
    requires i < |v|
  {
    exists k: nat :: FirstMark(LinksOf(v), Looped(v), i, k)
  }

  /** What publish promises about the list it emits, `b`, given the decoded list `a`. */
  ghost predicate Propagated(a: seq<Volume>, b: seq<Volume>) {
    && |a| == |b|
    && forall i :: 0 <= i < |a| ==>
         && b[i] == a[i].(driveId := b[i].driveId, loop := b[i].loop)
         && NearestDrive(a, i, b[i].driveId)
         && (b[i].loop <==> LoopOnChain(a, i))
  }

  ghost function DriveOnChain(v: seq<Volume>, i: nat): (d: Id)
    requires i < |v|
    ensures NearestDrive(v, i, d)
  {
    var next := LinksOf(v);
    if k: nat :| FirstMark(next, Owned(v), i, k) then
      FirstMarkIsFirst(next, Owned(v), i, k);
      v[Hop(next, i, k).value].driveId
    else ""
  }

  ghost function PropagatedOf(v: seq<Volume>): (r: seq<Volume>)
    ensures Propagated(v, r)
  {
    seq(|v|, i requires 0 <= i < |v| => v[i].(driveId := DriveOnChain(v, i), loop := LoopOnChain(v, i)))
  }

  /** What volume i takes over from the volume that backs it. */
  function Inherit(volume: Volume, backing: Volume): Volume {
    volume.(driveId := if volume.driveId == "" then backing.driveId else volume.driveId,
            loop := volume.loop || backing.loop)
  }

  /** No volume has anything left to inherit: another pass would change nothing. */
  ghost predicate Stable(next: Links, v: seq<Volume>)
    requires ValidLinks(next) && |next| == |v|
  {
    forall i :: 0 <= i < |v| && next[i].Some? ==> Inherit(v[i], v[next[i].value]) == v[i]
  }

  /** Everything the list in progress says is justified by the original list. */
  ghost predicate SoundAt(a: seq<Volume>, cur: seq<Volume>, i: nat)
    requires i < |a| == |cur|
  {
    && cur[i] == a[i].(driveId := cur[i].driveId, loop := cur[i].loop)
    && (a[i].driveId != "" ==> cur[i].driveId == a[i].driveId)
    && (cur[i].driveId != "" ==> NearestDrive(a, i, cur[i].driveId))
    && (a[i].loop ==> cur[i].loop)
    && (cur[i].loop ==> LoopOnChain(a, i))
  }

  ghost predicate Sound(a: seq<Volume>, cur: seq<Volume>) {
    |a| == |cur| && forall i :: 0 <= i < |a| ==> SoundAt(a, cur, i)
  }

  /** Every mark at most p hops from i has arrived at i. */
  ghost predicate Reached(a: seq<Volume>, cur: seq<Volume>, i: nat, p: nat)
    requires i < |a| == |cur|
  {
    && (forall k: nat :: k <= p && FirstMark(LinksOf(a), Owned(a), i, k) ==> cur[i].driveId != "")
    && (forall k: nat :: k <= p && FirstMark(LinksOf(a), Looped(a), i, k) ==> cur[i].loop)
  }

  /** The first m volumes have received marks up to p' hops away, the others up to p. */
  ghost predicate AllReached(a: seq<Volume>, cur: seq<Volume>, m: nat, p': nat, p: nat) {
    && |a| == |cur|
    && (forall i :: 0 <= i < m && i < |a| ==> Reached(a, cur, i, p'))
    && (forall i :: m <= i < |a| ==> Reached(a, cur, i, p))
  }

  lemma NearestDriveStep(a: seq<Volume>, i: nat, j: nat, d: Id)
    requires i < |a| && LinksOf(a)[i] == Some(j) && a[i].driveId == "" && d != ""
    requires NearestDrive(a, j, d)
    ensures NearestDrive(a, i, d)
  {
    var next := LinksOf(a);
    var k: nat :| FirstMark(next, Owned(a), j, k) && Hop(next, j, k).Some? && a[Hop(next, j, k).value].driveId == d;
    assert FirstMark(next, Owned(a), i, k + 1);
    assert Hop(next, i, k + 1) == Hop(next, j, k);
  }

  lemma LoopStep(a: seq<Volume>, i: nat, j: nat)
    requires i < |a| && LinksOf(a)[i] == Some(j) && LoopOnChain(a, j)
    ensures LoopOnChain(a, i)
  {
    var k: nat :| FirstMark(LinksOf(a), Looped(a), j, k);
    if a[i].loop {
      assert FirstMark(LinksOf(a), Looped(a), i, 0);
    } else {
      assert FirstMark(LinksOf(a), Looped(a), i, k + 1);
    }
  }

  /** Visiting i keeps soundness and brings i everything its backing volume had. */
  lemma VisitSound(a: seq<Volume>, cur: seq<Volume>, i: nat, j: nat)
    requires i < |a| && LinksOf(a)[i] == Some(j) && Sound(a, cur)
    ensures Sound(a, cur[i := Inherit(cur[i], cur[j])])
  {
    var cur' := cur[i := Inherit(cur[i], cur[j])];
    assert SoundAt(a, cur, i) && SoundAt(a, cur, j);
    if cur[i].driveId == "" && cur[j].driveId != "" {
      NearestDriveStep(a, i, j, cur[j].driveId);
    }
    if cur[j].loop {
      LoopStep(a, i, j);
    }
    forall m | 0 <= m < |a| ensures SoundAt(a, cur', m) {
      assert SoundAt(a, cur, m);
    }
  }

  lemma VisitReaches(a: seq<Volume>, cur: seq<Volume>, i: nat, p: nat)
    requires i < |a| && Sound(a, cur) && AllReached(a, cur, i, p + 1, p)
    ensures LinksOf(a)[i].None? ==> AllReached(a, cur, i + 1, p + 1, p)
    ensures LinksOf(a)[i].Some? ==>
              AllReached(a, cur[i := Inherit(cur[i], cur[LinksOf(a)[i].value])], i + 1, p + 1, p)
  {
    var next := LinksOf(a);
    assert SoundAt(a, cur, i) && Reached(a, cur, i, p);
    var cur' := if next[i].Some? then cur[i := Inherit(cur[i], cur[next[i].value])] else cur;
    forall k: nat | k <= p + 1
      ensures FirstMark(next, Owned(a), i, k) ==> cur'[i].driveId != ""
      ensures FirstMark(next, Looped(a), i, k) ==> cur'[i].loop
    {
      if k > 0 && next[i].Some? {
        var j := next[i].value;
        assert j < i ==> Reached(a, cur, j, p + 1);
        assert j >= i ==> Reached(a, cur, j, p);
        assert FirstMark(next, Looped(a), i, k) && !a[i].loop ==> FirstMark(next, Looped(a), j, k - 1);
        assert FirstMark(next, Owned(a), i, k) && a[i].driveId == "" ==> FirstMark(next, Owned(a), j, k - 1);
      }
    }
    var p' := p + 1;
    assert Reached(a, cur', i, p');
    forall m | 0 <= m < i ensures Reached(a, cur', m, p') {
      assert Reached(a, cur, m, p') && cur'[m] == cur[m];
    }
    forall m | i < m < |a| ensures Reached(a, cur', m, p) {
      assert Reached(a, cur, m, p) && cur'[m] == cur[m];
    }
    assert AllReached(a, cur', i + 1, p + 1, p);
  }

  /** A list that is sound and has nothing left to inherit has received every mark on every chain. */
  lemma {:induction false} StableReaches(a: seq<Volume>, cur: seq<Volume>, i: nat, k: nat)
    requires i < |a| && Sound(a, cur) && Stable(LinksOf(a), cur)
    ensures FirstMark(LinksOf(a), Owned(a), i, k) ==> cur[i].driveId != ""
    ensures FirstMark(LinksOf(a), Looped(a), i, k) ==> cur[i].loop
    decreases k
  {
    assert SoundAt(a, cur, i);
    if k > 0 && LinksOf(a)[i].Some? {
      StableReaches(a, cur, LinksOf(a)[i].value, k - 1);
    }
  }

  lemma SoundAndReachedIsPropagated(a: seq<Volume>, cur: seq<Volume>)
    requires Sound(a, cur)
    requires forall i, k: nat :: 0 <= i < |a| ==>
      && (FirstMark(LinksOf(a), Owned(a), i, k) ==> cur[i].driveId != "")
      && (FirstMark(LinksOf(a), Looped(a), i, k) ==> cur[i].loop)
    ensures Propagated(a, cur)
  {
    forall i | 0 <= i < |a|
      ensures NearestDrive(a, i, cur[i].driveId) && (cur[i].loop <==> LoopOnChain(a, i))
      ensures cur[i] == a[i].(driveId := cur[i].driveId, loop := cur[i].loop)
    {
      assert SoundAt(a, cur, i);
    }
  }

  /** After |a| passes every mark has arrived, because no chain to a first mark has |a| hops. */
  lemma PassesSuffice(a: seq<Volume>, cur: seq<Volume>)
    requires Sound(a, cur)
    requires AllReached(a, cur, 0, 0, |a|)
    ensures Propagated(a, cur)
  {
    forall i, k: nat | 0 <= i < |a|
      ensures FirstMark(LinksOf(a), Owned(a), i, k) ==> cur[i].driveId != ""
      ensures FirstMark(LinksOf(a), Looped(a), i, k) ==> cur[i].loop
    {
      assert Reached(a, cur, i, |a|);
      if FirstMark(LinksOf(a), Owned(a), i, k) { FirstMarkBounded(LinksOf(a), Owned(a), i, k); }
      if FirstMark(LinksOf(a), Looped(a), i, k) { FirstMarkBounded(LinksOf(a), Looped(a), i, k); }
    }
    SoundAndReachedIsPropagated(a, cur);
  }

  lemma StableSuffices(a: seq<Volume>, cur: seq<Volume>)
    requires Sound(a, cur) && Stable(LinksOf(a), cur)
    ensures Propagated(a, cur)
  {
    forall i, k: nat | 0 <= i < |a|
      ensures FirstMark(LinksOf(a), Owned(a), i, k) ==> cur[i].driveId != ""
      ensures FirstMark(LinksOf(a), Looped(a), i, k) ==> cur[i].loop
    {
      StableReaches(a, cur, i, k);
    }
    SoundAndReachedIsPropagated(a, cur);
  }

  lemma InitiallySound(a: seq<Volume>)
    ensures Sound(a, a) && AllReached(a, a, 0, 0, 0)
  {
    forall i | 0 <= i < |a| ensures SoundAt(a, a, i) {
      if a[i].driveId != "" {
        assert FirstMark(LinksOf(a), Owned(a), i, 0) && Hop(LinksOf(a), i, 0) == Some(i);
      }
      if a[i].loop {
        assert FirstMark(LinksOf(a), Looped(a), i, 0);
      }
    }
  }

  /** The published list is a fixpoint of the pass: one more pass over it changes nothing. */
  lemma PropagatedIsStable(a: seq<Volume>, b: seq<Volume>)
    requires Propagated(a, b)
    ensures Stable(LinksOf(a), b)
  {
    var next := LinksOf(a);
    forall i | 0 <= i < |b| && next[i].Some? ensures Inherit(b[i], b[next[i].value]) == b[i] {
      var j := next[i].value;
      if b[i].driveId == "" && b[j].driveId != "" {
        if a[i].driveId != "" {
          assert FirstMark(next, Owned(a), i, 0);
        } else {
          NearestDriveStep(a, i, j, b[j].driveId);
        }
      }
      if b[j].loop {
        LoopStep(a, i, j);
      }
    }
  }

  /** The specification leaves no freedom: there is one propagated list. */
  lemma PropagatedUnique(a: seq<Volume>, b: seq<Volume>, c: seq<Volume>)
    requires Propagated(a, b) && Propagated(a, c)
    ensures b == c
  {
    var next := LinksOf(a);
    forall i | 0 <= i < |a| ensures b[i] == c[i] {
      assert NearestDrive(a, i, b[i].driveId) && NearestDrive(a, i, c[i].driveId);
      if b[i].driveId != "" && c[i].driveId != "" {
        var k: nat :| FirstMark(next, Owned(a), i, k) && Hop(next, i, k).Some?
                      && a[Hop(next, i, k).value].driveId == b[i].driveId;
        var k': nat :| FirstMark(next, Owned(a), i, k') && Hop(next, i, k').Some?
                       && a[Hop(next, i, k').value].driveId == c[i].driveId;
        FirstMarkUnique(next, Owned(a), i, k, k');
      }
      assert b[i].loop <==> c[i].loop;
    }
  }

  /** The at-most-|volumes|-pass loop. `changed` ends it early; either exit leaves the propagated list. */
  method PropagateBacking(volumes: array<Volume>)
    requires UniqueIds(volumes[..])
    modifies volumes
    ensures Propagated(old(volumes[..]), volumes[..])
    ensures volumes[..] == PropagatedOf(old(volumes[..]))
  {
    ghost var a := volumes[..];
    PropagateInPasses(volumes);
    PropagatedUnique(a, volumes[..], PropagatedOf(a));
  }

  method PropagateInPasses(volumes: array<Volume>)
    requires UniqueIds(volumes[..])
    modifies volumes
    ensures Propagated(old(volumes[..]), volumes[..])
  {
    ghost var a := volumes[..];
    ghost var next := LinksOf(a);
    InitiallySound(a);
    var pass := 0;
    while pass < volumes.Length
      invariant 0 <= pass <= volumes.Length
      invariant Sound(a, volumes[..])
      invariant AllReached(a, volumes[..], 0, 0, pass)
    {
      var changed := PropagatePass(volumes, a, pass);
      if !changed {
        StableSuffices(a, volumes[..]);
        return;
      }
      pass := pass + 1;
    }
    PassesSuffice(a, volumes[..]);
  }

  /** One pass over the list, visiting each volume in place. */
  method PropagatePass(volumes: array<Volume>, ghost a: seq<Volume>, ghost pass: nat) returns (changed: bool)
    requires UniqueIds(a) && Sound(a, volumes[..]) && AllReached(a, volumes[..], 0, 0, pass)
    modifies volumes
    ensures Sound(a, volumes[..]) && AllReached(a, volumes[..], 0, 0, pass + 1)
    ensures !changed ==> volumes[..] == old(volumes[..]) && Stable(LinksOf(a), volumes[..])
  {
    ghost var next := LinksOf(a);
    ghost var start := volumes[..];
    changed := false;
    var i := 0;
    while i < volumes.Length
      invariant 0 <= i <= volumes.Length
      invariant Sound(a, volumes[..]) && AllReached(a, volumes[..], i, pass + 1, pass)
      invariant !changed ==> volumes[..] == start && forall m :: 0 <= m < i && next[m].Some? ==>
                                Inherit(start[m], start[next[m].value]) == start[m]
    {
      VisitReaches(a, volumes[..], i, pass);
      if next[i].Some? { VisitSound(a, volumes[..], i, next[i].value); }
      var inherited := VisitVolume(volumes, i, a);
      changed := changed || inherited;
      i := i + 1;
    }
  }

  /** The inner loop: scan all volumes for the one that backs volume i. */
  method VisitVolume(volumes: array<Volume>, i: nat, ghost a: seq<Volume>) returns (changed: bool)
    requires UniqueIds(a) && Sound(a, volumes[..]) && i < volumes.Length
    modifies volumes
    ensures volumes[..] ==
            if LinksOf(a)[i].None? then old(volumes[..])
            else old(volumes[..])[i := Inherit(old(volumes[i]), old(volumes[LinksOf(a)[i].value]))]
    ensures changed <==> volumes[..] != old(volumes[..])
  {
    ghost var before := volumes[..];
    ghost var link := LinksOf(a)[i];
    assert link == BackingOf(a, i);
    changed := false;
    assert forall m :: 0 <= m < |a| ==> before[m].id == a[m].id && before[m].cryptoBackingId == a[m].cryptoBackingId by {
      forall m | 0 <= m < |a| ensures before[m].id == a[m].id && before[m].cryptoBackingId == a[m].cryptoBackingId {
        assert SoundAt(a, before, m);
      }
    }
    var b := 0;
    while b < volumes.Length
      invariant 0 <= b <= volumes.Length
      invariant volumes[..] == if link.Some? && link.value < b then before[i := Inherit(before[i], before[link.value])]
                               else before
      invariant changed <==> volumes[..] != before
    {
      if volumes[i].cryptoBackingId != "" && volumes[b].id == volumes[i].cryptoBackingId {
        assert a[b].id == a[i].cryptoBackingId;
        assert link == Some(b);
        assert volumes[..] == before;
        if volumes[i].driveId == "" && volumes[b].driveId != "" {
          volumes[i] := volumes[i].(driveId := volumes[b].driveId);
          changed := true;
        }
        if !volumes[i].loop && volumes[b].loop {
          volumes[i] := volumes[i].(loop := true);
          changed := true;
        }
        assert volumes[..][i] == Inherit(before[i], before[b]);
        assert volumes[..] == before[i := Inherit(before[i], before[b])];
      }
      b := b + 1;
    }
  }
}
