/**
 Lifetime identifiers, as UDisks2Backend and BlueZBackend hand them out: an object gets one when it is first seen, keeps
 it while it stays in the table, and a later object at the same key gets another. `drawn` is the history of every pair
 of key and identifier.
 */
module LifetimeIds {
  import opened Prelude

  /** `uuids` gives exactly the new keys their identifiers: never used before and pairwise different. */
  ghost predicate FreshFor<K>(ids: map<K, Id>, drawn: set<(K, Id)>, live: set<K>, uuids: map<K, Id>) {
    && uuids.Keys == live - ids.Keys
    && (forall k :: k in uuids ==> uuids[k] != "" && forall d :: d in drawn ==> d.1 != uuids[k])
    && (forall k, k' :: k in uuids && k' in uuids && k != k' ==> uuids[k] != uuids[k'])
  }

  function IdsAfter<K(==)>(ids: map<K, Id>, live: set<K>, uuids: map<K, Id>): map<K, Id>
    requires uuids.Keys == live - ids.Keys
  {
    map k | k in live :: if k in ids then ids[k] else uuids[k]
  }

  /** No identifier was ever given to two keys, and the table only holds drawn ones. */
  ghost predicate Sound<K>(ids: map<K, Id>, drawn: set<(K, Id)>) {
    && (forall d, d' :: d in drawn && d' in drawn && d.1 == d'.1 ==> d == d')
    && (forall d :: d in drawn ==> d.1 != "")
    && (forall k :: k in ids ==> (k, ids[k]) in drawn)
  }

  ghost predicate Alive<K>(ids: map<K, Id>, id: Id) {
    exists k :: k in ids && ids[k] == id
  }

  /** Identifiers drawn stay drawn, and one that has left the table does not come back. */
  ghost predicate Respected<K>(ids: map<K, Id>, drawn: set<(K, Id)>, ids': map<K, Id>, drawn': set<(K, Id)>) {
    && drawn <= drawn'
    && (forall d :: d in drawn && !Alive(ids, d.1) ==> !Alive(ids', d.1))
  }

  lemma PublishingKeepsSound<K>(ids: map<K, Id>, drawn: set<(K, Id)>, live: set<K>, uuids: map<K, Id>)
    requires Sound(ids, drawn) && FreshFor(ids, drawn, live, uuids)
    ensures Sound(IdsAfter(ids, live, uuids), drawn + uuids.Items)
  {
  }

  lemma PublishingRespects<K>(ids: map<K, Id>, drawn: set<(K, Id)>, live: set<K>, uuids: map<K, Id>)
    requires Sound(ids, drawn) && FreshFor(ids, drawn, live, uuids)
    ensures Respected(ids, drawn, IdsAfter(ids, live, uuids), drawn + uuids.Items)
  {
    var ids' := IdsAfter(ids, live, uuids);
    forall d | d in drawn && !Alive(ids, d.1) ensures !Alive(ids', d.1) {
      forall k | k in ids' ensures ids'[k] != d.1 {}
    }
  }

  lemma FewerRespect<K>(ids: map<K, Id>, drawn: set<(K, Id)>, ids': map<K, Id>)
    requires forall k :: k in ids' ==> k in ids && ids'[k] == ids[k]
    ensures Respected(ids, drawn, ids', drawn)
    ensures Sound(ids, drawn) ==> Sound(ids', drawn)
  {
    forall d | d in drawn && !Alive(ids, d.1) ensures !Alive(ids', d.1) {}
  }

  lemma OneKeyPerId<K>(ids: map<K, Id>, drawn: set<(K, Id)>, k: K, k': K)
    requires Sound(ids, drawn) && k in ids && k' in ids && ids[k] == ids[k']
    ensures k == k'
  {
    assert (k, ids[k]) in drawn && (k', ids[k']) in drawn;
  }

  lemma DrawnOnce<K>(ids: map<K, Id>, drawn: set<(K, Id)>, k: K, id: Id)
    requires Sound(ids, drawn) && (k, id) in drawn && id in ids.Values
    ensures k in ids && ids[k] == id
  {
    var k' :| k' in ids && ids[k'] == id;
    assert (k', id) in drawn;
  }
}
