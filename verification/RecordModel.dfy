/**
 StorageDriveModel and StorageVolumeModel: one list of records with identities, reconciled in place against a
 complete new list while telling views which rows were removed, inserted or changed.
 */
module RecordModel {
  import opened Prelude

  // ---------------------------------------------------------------- specification

  function IdsOf<T>(idOf: T -> Id, s: seq<T>): (r: seq<Id>)
    ensures |r| == |s| && forall i :: 0 <= i < |s| ==> r[i] == idOf(s[i])
  {
    seq(|s|, i requires 0 <= i < |s| => idOf(s[i]))
  }

  /** The first row with the identity, or the row count. */
  function RowOf<T>(idOf: T -> Id, s: seq<T>, id: Id): (row: nat)
    ensures row <= |s|
    ensures forall i :: 0 <= i < row ==> idOf(s[i]) != id
    ensures row < |s| ==> idOf(s[row]) == id
  {
    if s == [] then 0
    else if idOf(s[0]) == id then 0
    else 1 + RowOf(idOf, s[1..], id)
  }

  function Find<T>(idOf: T -> Id, s: seq<T>, id: Id): (r: Option<T>)
    ensures r.Some? ==> r.value in s && idOf(r.value) == id
    ensures r.None? ==> id !in IdsOf(idOf, s)
  {
    var row := RowOf(idOf, s, id);
    if row < |s| then Some(s[row]) else None
  }

  /** Rows whose identity is still present, in their old order. */
  function Survivors<T>(idOf: T -> Id, s: seq<T>, present: seq<Id>): seq<T> {
    if s == [] then []
    else (if idOf(s[0]) in present then [s[0]] else []) + Survivors(idOf, s[1..], present)
  }

  function Upsert<T>(idOf: T -> Id, s: seq<T>, item: T): seq<T> {
    var row := RowOf(idOf, s, idOf(item));
    if row < |s| then s[row := item] else s + [item]
  }

  function Upserts<T>(idOf: T -> Id, s: seq<T>, input: seq<T>): seq<T> {
    if input == [] then s
    else Upsert(idOf, Upserts(idOf, s, input[..|input| - 1]), input[|input| - 1])
  }

  /** The list after `apply(input)`. */
  function Reconciled<T>(idOf: T -> Id, s: seq<T>, input: seq<T>): seq<T> {
    Upserts(idOf, Survivors(idOf, s, IdsOf(idOf, input)), input)
  }

  // ---------------------------------------------------------------- an independent reading of the result

  function KeptIds(ids: seq<Id>, present: seq<Id>): seq<Id> {
    if ids == [] then []
    else (if ids[0] in present then [ids[0]] else []) + KeptIds(ids[1..], present)
  }

  /** Identities of `input` unknown to `known`, at their first occurrence. */
  function NewIds(known: seq<Id>, input: seq<Id>): seq<Id> {
    if input == [] then []
    else
      var before := NewIds(known, input[..|input| - 1]);
      var last := input[|input| - 1];
      if last in known || last in before then before else before + [last]
  }

  /** The latest record `input` gives for an identity. */
  function LastWith<T>(idOf: T -> Id, input: seq<T>, id: Id): (r: T)
    requires id in IdsOf(idOf, input)
    ensures r in input && idOf(r) == id
  {
    var last := |input| - 1;
    if idOf(input[last]) == id then input[last]
    else
      assert IdsOf(idOf, input) == IdsOf(idOf, input[..last]) + [idOf(input[last])];
      LastWith(idOf, input[..last], id)
  }

  lemma NewIdsMembers(known: seq<Id>, input: seq<Id>)
    ensures forall x :: x in NewIds(known, input) <==> x in input && x !in known
    ensures Distinct(NewIds(known, input))
  {
    if input != [] {
      NewIdsMembers(known, input[..|input| - 1]);
      assert input == input[..|input| - 1] + [input[|input| - 1]];
    }
  }

  lemma NewIdsDependOnMembersOnly(known: seq<Id>, known': seq<Id>, input: seq<Id>)
    requires forall x :: x in input ==> (x in known <==> x in known')
    ensures NewIds(known, input) == NewIds(known', input)
  {
    if input != [] {
      NewIdsDependOnMembersOnly(known, known', input[..|input| - 1]);
    }
  }

  lemma {:induction false} SurvivorIds<T>(idOf: T -> Id, s: seq<T>, present: seq<Id>)
    ensures IdsOf(idOf, Survivors(idOf, s, present)) == KeptIds(IdsOf(idOf, s), present)
    ensures forall x :: x in KeptIds(IdsOf(idOf, s), present) <==> x in IdsOf(idOf, s) && x in present
    ensures Distinct(IdsOf(idOf, s)) ==> Distinct(KeptIds(IdsOf(idOf, s), present))
  {
    if s != [] {
      var ids := IdsOf(idOf, s);
      assert ids[1..] == IdsOf(idOf, s[1..]);
      SurvivorIds(idOf, s[1..], present);
      assert ids == [ids[0]] + ids[1..];
      var rest := Survivors(idOf, s[1..], present);
      if idOf(s[0]) in present {
        assert IdsOf(idOf, [s[0]] + rest) == [idOf(s[0])] + IdsOf(idOf, rest);
      }
      if Distinct(ids) {
        assert ids[0] !in ids[1..];
      }
    }
  }

  /** One step of the second loop, seen from outside: ids grow by at most one, one row takes the new value. */
  lemma UpsertIds<T>(idOf: T -> Id, s: seq<T>, item: T)
    ensures IdsOf(idOf, Upsert(idOf, s, item)) ==
            if idOf(item) in IdsOf(idOf, s) then IdsOf(idOf, s) else IdsOf(idOf, s) + [idOf(item)]
  {
    var row := RowOf(idOf, s, idOf(item));
    if row < |s| { assert IdsOf(idOf, s)[row] == idOf(item); }
  }

  lemma {:induction false} UpsertsIds<T>(idOf: T -> Id, s: seq<T>, input: seq<T>)
    requires Distinct(IdsOf(idOf, s))
    ensures IdsOf(idOf, Upserts(idOf, s, input)) == IdsOf(idOf, s) + NewIds(IdsOf(idOf, s), IdsOf(idOf, input))
    ensures Distinct(IdsOf(idOf, Upserts(idOf, s, input)))
  {
    var known := IdsOf(idOf, s);
    NewIdsMembers(known, IdsOf(idOf, input));
    if input != [] {
      var n := |input| - 1;
      UpsertsIds(idOf, s, input[..n]);
      NewIdsMembers(known, IdsOf(idOf, input[..n]));
      UpsertIds(idOf, Upserts(idOf, s, input[..n]), input[n]);
      assert IdsOf(idOf, input)[..n] == IdsOf(idOf, input[..n]);
    }
  }

  ghost predicate HoldsLatest<T>(idOf: T -> Id, s: seq<T>, input: seq<T>, row: T, r: nat) {
    if idOf(row) in IdsOf(idOf, input) then row == LastWith(idOf, input, idOf(row))
    else r < |s| && row == s[r]
  }

  lemma LastWithStep<T>(idOf: T -> Id, input: seq<T>, item: T, id: Id)
    ensures id in IdsOf(idOf, input + [item]) <==> id == idOf(item) || id in IdsOf(idOf, input)
    ensures id == idOf(item) ==> LastWith(idOf, input + [item], id) == item
    ensures id != idOf(item) && id in IdsOf(idOf, input) ==>
              LastWith(idOf, input + [item], id) == LastWith(idOf, input, id)
  {
    assert IdsOf(idOf, input + [item]) == IdsOf(idOf, input) + [idOf(item)];
    assert (input + [item])[..|input|] == input;
  }

  lemma {:induction false} UpsertsValues<T>(idOf: T -> Id, s: seq<T>, input: seq<T>)
    requires Distinct(IdsOf(idOf, s))
    ensures forall r :: 0 <= r < |Upserts(idOf, s, input)| ==>
              HoldsLatest(idOf, s, input, Upserts(idOf, s, input)[r], r)
  {
    if input != [] {
      var n := |input| - 1;
      var before := Upserts(idOf, s, input[..n]);
      var after := Upserts(idOf, s, input);
      UpsertsValues(idOf, s, input[..n]);
      UpsertsIds(idOf, s, input[..n]);
      assert input == input[..n] + [input[n]];
      forall r | 0 <= r < |after| ensures HoldsLatest(idOf, s, input, after[r], r) {
        LastWithStep(idOf, input[..n], input[n], idOf(after[r]));
        var row := RowOf(idOf, before, idOf(input[n]));
        if r < |before| {
          assert HoldsLatest(idOf, s, input[..n], before[r], r);
          if r != row && row < |before| {
            assert IdsOf(idOf, before)[r] != IdsOf(idOf, before)[row];
          }
        }
      }
    }
  }

  /**
   `apply` is exactly this: survivors in their old order, then unseen identities in order of first appearance, every row
   holding the latest record given for its identity. No assumption is made about duplicates in the input.
   */
  lemma ReconciledMeaning<T>(idOf: T -> Id, s: seq<T>, input: seq<T>)
    requires Distinct(IdsOf(idOf, s))
    ensures var r := Reconciled(idOf, s, input);
            && IdsOf(idOf, r) == KeptIds(IdsOf(idOf, s), IdsOf(idOf, input)) + NewIds(IdsOf(idOf, s), IdsOf(idOf, input))
            && Distinct(IdsOf(idOf, r))
            && (forall k :: 0 <= k < |r| ==>
                  idOf(r[k]) in IdsOf(idOf, input) && r[k] == LastWith(idOf, input, idOf(r[k])))
  {
    var present := IdsOf(idOf, input);
    var kept := Survivors(idOf, s, present);
    var r := Reconciled(idOf, s, input);
    SurvivorIds(idOf, s, present);
    UpsertsIds(idOf, kept, input);
    UpsertsValues(idOf, kept, input);
    NewIdsDependOnMembersOnly(IdsOf(idOf, s), IdsOf(idOf, kept), present);
    NewIdsMembers(IdsOf(idOf, kept), present);
    forall k | 0 <= k < |r| ensures idOf(r[k]) in present && r[k] == LastWith(idOf, input, idOf(r[k])) {
      assert IdsOf(idOf, r)[k] == idOf(r[k]);
      assert HoldsLatest(idOf, kept, input, r[k], k);
    }
  }

  /** The same identities are present before and after: the model holds exactly the snapshot's records. */
  lemma ReconciledMembers<T>(idOf: T -> Id, s: seq<T>, input: seq<T>)
    requires Distinct(IdsOf(idOf, s)) && Distinct(IdsOf(idOf, input))
    ensures forall x :: x in Reconciled(idOf, s, input) <==> x in input
  {
    var r := Reconciled(idOf, s, input);
    var present := IdsOf(idOf, input);
    ReconciledMeaning(idOf, s, input);
    forall x | x in r ensures x in input {
      var k :| 0 <= k < |r| && r[k] == x;
      assert r[k] == LastWith(idOf, input, idOf(r[k]));
    }
    forall x | x in input ensures x in r {
      var i :| 0 <= i < |input| && input[i] == x;
      assert present[i] == idOf(x);
      SurvivorIds(idOf, s, present);
      NewIdsMembers(IdsOf(idOf, s), present);
      assert idOf(x) in IdsOf(idOf, r);
      var k :| 0 <= k < |r| && IdsOf(idOf, r)[k] == idOf(x);
      assert r[k] == LastWith(idOf, input, idOf(x));
      var j :| 0 <= j < |input| && input[j] == r[k];
      assert present[j] == present[i];
    }
  }

  // ---------------------------------------------------------------- what views are told

  datatype RowEvent<T> = Removed(row: nat) | Inserted(row: nat, item: T) | Changed(row: nat, item: T)

  /** A view's copy after hearing one notification; None if the notification names a row it does not have. */
  function Hear<T>(copy: Option<seq<T>>, e: RowEvent<T>): Option<seq<T>> {
    if copy.None? then None
    else
      var s := copy.value;
      match e
      case Removed(row) => if row < |s| then Some(s[..row] + s[row + 1..]) else None
      case Inserted(row, item) => if row <= |s| then Some(s[..row] + [item] + s[row..]) else None
      case Changed(row, item) => if row < |s| then Some(s[row := item]) else None
  }

  function Replay<T>(s: seq<T>, events: seq<RowEvent<T>>): Option<seq<T>> {
    if events == [] then Some(s)
    else Hear(Replay(s, events[..|events| - 1]), events[|events| - 1])
  }

  lemma ReplayOneMore<T>(s: seq<T>, events: seq<RowEvent<T>>, e: RowEvent<T>)
    ensures Replay(s, events + [e]) == Hear(Replay(s, events), e)
  {
    assert (events + [e])[..|events|] == events;
  }

  lemma NothingDone<T>(idOf: T -> Id, s: seq<T>, present: seq<Id>)
    ensures Replay(s, []) == Some(s) && s[..|s|] + Survivors(idOf, s[|s|..], present) == s
    ensures s[..0] + Survivors(idOf, s[0..], present) == Survivors(idOf, s, present)
  {
    assert s[0..] == s;
  }

  /** What the first loop does with row `i`: the rows behind it are settled. */
  lemma SettleRow<T>(idOf: T -> Id, s: seq<T>, present: seq<Id>, i: nat)
    requires i < |s|
    ensures var now := s[..i + 1] + Survivors(idOf, s[i + 1..], present);
            && |now| > i && now[i] == s[i]
            && s[..i] + Survivors(idOf, s[i..], present)
               == if idOf(s[i]) in present then now else now[..i] + now[i + 1..]
  {
    assert s[..i + 1] == s[..i] + [s[i]] && s[i..][1..] == s[i + 1..];
  }

  // ---------------------------------------------------------------- the models

  class ListModel<T(==)> {
    const idOf: T -> Id
    var items: seq<T>

    ghost predicate Valid()
      reads this
    {
      Distinct(IdsOf(idOf, items))
    }

    constructor (idOf: T -> Id)
      ensures Valid() && items == [] && this.idOf == idOf
    {
      this.idOf := idOf;
      items := [];
    }

    method FindItem(identifier: Id) returns (r: Option<T>)
      ensures r == Find(idOf, items, identifier)
    {
      var i := 0;
      while i < |items|
        invariant 0 <= i <= |items|
        invariant forall j :: 0 <= j < i ==> idOf(items[j]) != identifier
      {
        if idOf(items[i]) == identifier {
          assert RowOf(idOf, items, identifier) == i;
          return Some(items[i]);
        }
        i := i + 1;
      }
      assert RowOf(idOf, items, identifier) == |items|;
      return None;
    }

    method Apply(input: seq<T>) returns (events: seq<RowEvent<T>>)
      requires Valid()
      modifies this
      ensures Valid()
      ensures items == Reconciled(idOf, old(items), input)
      ensures Replay(old(items), events) == Some(items)
    {
      ReconciledMeaning(idOf, items, input);
      events := RemoveAbsent(input);
      events := UpsertAll(input, old(items), events);
    }

    /** First loop: drop the rows whose identity is gone, from the last row to the first. */
    method RemoveAbsent(input: seq<T>) returns (events: seq<RowEvent<T>>)
      modifies this
      ensures items == Survivors(idOf, old(items), IdsOf(idOf, input))
      ensures Replay(old(items), events) == Some(items)
    {
      hide Survivors, Replay, IdsOf;
      events := [];
      ghost var start := items;
      NothingDone(idOf, start, IdsOf(idOf, input));
      ghost var present := IdsOf(idOf, input);
      var i := |items|;
      while i > 0
        invariant 0 <= i <= |start|
        invariant items == start[..i] + Survivors(idOf, start[i..], present)
        invariant Replay(start, events) == Some(items)
      {
        i := i - 1;
        SettleRow(idOf, start, present, i);
        var stays := Mentions(input, idOf(items[i]));
        if !stays {
          ReplayOneMore(start, events, Removed(i));
          events := events + [Removed(i)];
          items := items[..i] + items[i + 1..];
        }
      }
    }

    /** Second loop: overwrite the row of each known identity, append the others. */
    method UpsertAll(input: seq<T>, ghost start: seq<T>, heard: seq<RowEvent<T>>) returns (events: seq<RowEvent<T>>)
      requires Replay(start, heard) == Some(items)
      modifies this
      ensures items == Upserts(idOf, old(items), input)
      ensures Replay(start, events) == Some(items)
    {
      hide Replay, IdsOf, RowOf;
      events := heard;
      ghost var kept := items;
      var n := 0;
      while n < |input|
        invariant 0 <= n <= |input|
        invariant items == Upserts(idOf, kept, input[..n])
        invariant Replay(start, events) == Some(items)
      {
        var item := input[n];
        assert input[..n + 1][..n] == input[..n];
        var row := 0;
        while row < |items| && idOf(items[row]) != idOf(item)
          invariant 0 <= row <= |items|
          invariant forall j :: 0 <= j < row ==> idOf(items[j]) != idOf(item)
        {
          row := row + 1;
        }
        assert row == RowOf(idOf, items, idOf(item));
        if row == |items| {
          ReplayOneMore(start, events, Inserted(row, item));
          assert items[..row] + [item] + items[row..] == items + [item];
          events := events + [Inserted(row, item)];
          items := items + [item];
        } else if items[row] != item {
          ReplayOneMore(start, events, Changed(row, item));
          events := events + [Changed(row, item)];
          items := items[row := item];
        }
        n := n + 1;
      }
      assert input[..n] == input;
    }

    method Mentions(input: seq<T>, id: Id) returns (present: bool)
      ensures present <==> id in IdsOf(idOf, input)
    {
      present := false;
      var k := 0;
      while k < |input| && !present
        invariant 0 <= k <= |input|
        invariant present <==> id in IdsOf(idOf, input)[..k]
      {
        present := idOf(input[k]) == id;
        k := k + 1;
      }
      assert present || IdsOf(idOf, input)[..k] == IdsOf(idOf, input);
    }
  }
}
