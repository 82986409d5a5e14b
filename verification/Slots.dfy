/**
 * Work items that live as files in state directories. Files of different items never
 * interact, so an item is described by its slot: the copy each directory holds of it.
 */
module Slots {
  import opened Common

  datatype Slot<+T> = Slot(pending: Option<T>, inflight: Option<T>, history: Option<T>, dead: Option<T>)

  function Count<T>(o: Option<T>): nat {
    if o.Some? then 1 else 0
  }

  /** How many directories hold a copy. */
  function Copies<T>(s: Slot<T>): nat {
    Count(s.pending) + Count(s.inflight) + Count(s.history) + Count(s.dead)
  }

  /** A transition writes its destination before it removes `inflight`: no other two copies ever coexist. */
  predicate OneSettled<T>(s: Slot<T>) {
    Count(s.pending) + Count(s.history) + Count(s.dead) <= 1
  }
}

/** Directory listings, ordered by creation time. */
module Listings {

  ghost predicate IsListing<K>(order: seq<K>, createdAt: map<K, int>) {
    && (forall i :: 0 <= i < |order| ==> order[i] in createdAt)
    && (forall k :: k in createdAt ==> k in order)
    && (forall i, j :: 0 <= i < j < |order| ==> order[i] != order[j])
    && (forall i, j :: 0 <= i < j < |order| ==> createdAt[order[i]] <= createdAt[order[j]])
  }

  lemma {:induction false} EarliestExists<K>(createdAt: map<K, int>, keys: set<K>)
    requires keys != {} && keys <= createdAt.Keys
    ensures exists k :: k in keys && forall other :: other in keys ==> createdAt[k] <= createdAt[other]
    decreases |keys|
  {
    var k :| k in keys;
    var rest := keys - {k};
    if rest == {} {
      assert keys == {k};
    } else {
      EarliestExists(createdAt, rest);
      var e :| e in rest && forall other :: other in rest ==> createdAt[e] <= createdAt[other];
      var best := if createdAt[k] <= createdAt[e] then k else e;
      assert forall other :: other in keys ==> other == k || other in rest;
      assert best in keys && forall other :: other in keys ==> createdAt[best] <= createdAt[other];
    }
  }

  method List<K(==)>(createdAt: map<K, int>) returns (order: seq<K>)
    ensures IsListing(order, createdAt)
  {
    order := [];
    var rest := createdAt.Keys;
    while rest != {}
      invariant rest <= createdAt.Keys
      invariant forall i :: 0 <= i < |order| ==> order[i] in createdAt && order[i] !in rest
      invariant forall k :: k in createdAt ==> k in rest || k in order
      invariant forall i, j :: 0 <= i < j < |order| ==> order[i] != order[j]
      invariant forall i, j :: 0 <= i < j < |order| ==> createdAt[order[i]] <= createdAt[order[j]]
      invariant forall i, k :: 0 <= i < |order| && k in rest ==> createdAt[order[i]] <= createdAt[k]
      decreases |rest|
    {
      EarliestExists(createdAt, rest);
      var k :| k in rest && forall other :: other in rest ==> createdAt[k] <= createdAt[other];
      ghost var before := order;
      order := order + [k];
      rest := rest - {k};
      forall i, j | 0 <= i < j < |order| ensures order[i] != order[j] && createdAt[order[i]] <= createdAt[order[j]] {
        if j < |before| {
          assert order[i] == before[i] && order[j] == before[j];
        } else {
          assert order[i] == before[i] && before[i] !in rest + {k};
        }
      }
    }
  }

  /** The first i files of a listing. */
  function Visited<K(==)>(order: seq<K>, i: nat): set<K>
    requires i <= |order|
  {
    set k | k in order[..i]
  }

  lemma VisitedNext<K>(order: seq<K>, createdAt: map<K, int>, i: nat)
    requires IsListing(order, createdAt) && i < |order|
    ensures order[i] in createdAt && order[i] !in Visited(order, i) && Visited(order, i + 1) == Visited(order, i) + {order[i]}
  {
    assert order[..i + 1] == order[..i] + [order[i]];
  }

  lemma VisitedAll<K>(order: seq<K>, createdAt: map<K, int>)
    requires IsListing(order, createdAt)
    ensures Visited(order, |order|) == createdAt.Keys
  {
    assert order[..|order|] == order;
  }
}
