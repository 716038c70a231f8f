/** Small shared vocabulary: optional values, identifiers, and the string order behind QStringList::sort. */
module Prelude {
  datatype Option<+T> = None | Some(value: T)

  /** Every identifier the services hand out is an opaque string; the empty string means "none". */
  type Id = string

  predicate Distinct<T(==)>(s: seq<T>) {
    forall i, j :: 0 <= i < j < |s| ==> s[i] != s[j]
  }

  function Lefts<A, B>(pairs: seq<(A, B)>): (r: seq<A>)
    ensures |r| == |pairs| && forall i :: 0 <= i < |r| ==> r[i] == pairs[i].0
  {
    if pairs == [] then [] else Lefts(pairs[..|pairs| - 1]) + [pairs[|pairs| - 1].0]
  }

  function Rights<A, B>(pairs: seq<(A, B)>): (r: seq<B>)
    ensures |r| == |pairs| && forall i :: 0 <= i < |r| ==> r[i] == pairs[i].1
  {
    if pairs == [] then [] else Rights(pairs[..|pairs| - 1]) + [pairs[|pairs| - 1].1]
  }

  /** Lexicographic order on code units, as QString's operator< compares them. */
  predicate StrLe(a: string, b: string) {
    a == "" || (b != "" && (a[0] < b[0] || (a[0] == b[0] && StrLe(a[1..], b[1..]))))
  }

  lemma {:induction false} StrLeTotal(a: string, b: string)
    ensures StrLe(a, b) || StrLe(b, a)
  {
    if a != "" && b != "" && a[0] == b[0] {
      StrLeTotal(a[1..], b[1..]);
    }
  }

  lemma {:induction false} StrLeAntisymmetric(a: string, b: string)
    requires StrLe(a, b) && StrLe(b, a)
    ensures a == b
  {
    if a != "" && b != "" {
      StrLeAntisymmetric(a[1..], b[1..]);
      assert a == [a[0]] + a[1..] && b == [b[0]] + b[1..];
    }
  }

  lemma {:induction false} StrLeTransitive(a: string, b: string, c: string)
    requires StrLe(a, b) && StrLe(b, c)
    ensures StrLe(a, c)
  {
    if a != "" && a[0] == b[0] && b[0] == c[0] {
      StrLeTransitive(a[1..], b[1..], c[1..]);
    }
  }

  predicate SortedIds(s: seq<Id>) {
    forall i, j :: 0 <= i < j < |s| ==> StrLe(s[i], s[j])
  }

  function InsertId(x: Id, s: seq<Id>): (r: seq<Id>)
    requires SortedIds(s)
    ensures SortedIds(r) && multiset(r) == multiset(s) + multiset{x}
  {
    if s == [] then [x]
    else if StrLe(x, s[0]) then
      assert forall j :: 0 <= j < |s| ==> StrLe(x, s[j]) by {
        forall j | 0 < j < |s| ensures StrLe(x, s[j]) { StrLeTransitive(x, s[0], s[j]); }
      }
      [x] + s
    else
      var rest := InsertId(x, s[1..]);
      assert s == [s[0]] + s[1..];
      assert forall j :: 0 <= j < |rest| ==> StrLe(s[0], rest[j]) by {
        StrLeTotal(x, s[0]);
        forall j | 0 <= j < |rest| ensures StrLe(s[0], rest[j]) {
          assert rest[j] in multiset(rest);
          assert rest[j] == x || rest[j] in s[1..];
        }
      }
      [s[0]] + rest
  }

  /** The sorted arrangement of `s`, which is what QStringList::sort leaves behind. */
  function SortIds(s: seq<Id>): (r: seq<Id>)
    ensures SortedIds(r) && multiset(r) == multiset(s)
  {
    if s == [] then []
    else
      assert s == [s[0]] + s[1..];
      InsertId(s[0], SortIds(s[1..]))
  }

  lemma HeadIsLeast(s: seq<Id>, x: Id)
    requires SortedIds(s) && x in multiset(s)
    ensures s != [] && StrLe(s[0], x)
  {
    StrLeTotal(x, x);
  }

  lemma MultisetOfTail(s: seq<Id>)
    requires s != []
    ensures multiset(s[1..]) == multiset(s) - multiset{s[0]}
  {
    assert s == [s[0]] + s[1..];
  }

  /** Sorting is canonical: a permutation of a list sorts to the same list. */
  lemma {:induction false} SortedUnique(a: seq<Id>, b: seq<Id>)
    requires SortedIds(a) && SortedIds(b) && multiset(a) == multiset(b)
    ensures a == b
    decreases |a|
  {
    assert |multiset(a)| == |a| && |multiset(b)| == |b|;
    if a != [] {
      assert a[0] in multiset(a) && b[0] in multiset(b);
      HeadIsLeast(a, b[0]);
      HeadIsLeast(b, a[0]);
      StrLeAntisymmetric(a[0], b[0]);
      MultisetOfTail(a);
      MultisetOfTail(b);
      SortedUnique(a[1..], b[1..]);
      assert a == [a[0]] + a[1..] && b == [b[0]] + b[1..];
    }
  }

  lemma SortIdsMembers(s: seq<Id>, x: Id)
    ensures x in SortIds(s) <==> x in s
  {
    assert x in multiset(SortIds(s)) <==> x in multiset(s);
  }

  /** An injective list of indices below n has at most n entries. */
  lemma {:induction false} Pigeonhole(s: seq<nat>, n: nat)
    requires Distinct(s) && forall i :: 0 <= i < |s| ==> s[i] < n
    ensures |s| <= n
    decreases n
  {
    if s != [] {
      assert s[0] < n;
      if n - 1 in s {
        var k :| 0 <= k < |s| && s[k] == n - 1;
        var others := s[..k] + s[k + 1..];
        assert |others| == |s| - 1;
        assert forall i :: 0 <= i < |others| ==> others[i] == if i < k then s[i] else s[i + 1];
        Pigeonhole(others, n - 1);
      } else {
        Pigeonhole(s, n - 1);
      }
    }
  }
}
