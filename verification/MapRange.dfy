/** Go leaves the order of `range` over a map open: any duplicate-free enumeration of the keys may occur. */
module MapRange {

  ghost predicate NoDuplicates<T>(s: seq<T>) {
    forall i, j :: 0 <= i < j < |s| ==> s[i] != s[j]
  }

  /** `order` visits every key exactly once and nothing else. */
  ghost predicate Enumerates<T>(order: seq<T>, keys: set<T>) {
    && NoDuplicates(order)
    && (forall k :: k in order ==> k in keys)
    && (forall k :: k in keys ==> k in order)
  }

  /** The part of `m` that the first `n` iterations of a range loop have visited. */
  function Visited<K, V>(m: map<K, V>, order: seq<K>, n: nat): map<K, V>
    requires n <= |order|
    requires forall k :: k in order ==> k in m
  {
    map k | k in m && k in order[..n] :: m[k]
  }

  /** One more iteration adds one entry. */
  lemma VisitNext<K, V>(m: map<K, V>, order: seq<K>, n: nat)
    requires n < |order|
    requires forall k :: k in order ==> k in m
    ensures Visited(m, order, n + 1) == Visited(m, order, n)[order[n] := m[order[n]]]
  {
    assert order[..n + 1] == order[..n] + [order[n]];
  }

  lemma VisitNone<K, V>(m: map<K, V>, order: seq<K>)
    requires forall k :: k in order ==> k in m
    ensures Visited(m, order, 0) == map[]
  {
  }

  lemma VisitAll<K, V>(m: map<K, V>, order: seq<K>)
    requires Enumerates(order, m.Keys)
    ensures Visited(m, order, |order|) == m
  {
    assert order[..|order|] == order;
    forall k | k in m
      ensures k in order
    {
      assert k in m.Keys;
    }
  }

  lemma {:induction false} EnumerationLength<T>(order: seq<T>, keys: set<T>)
    requires Enumerates(order, keys)
    ensures |order| == |keys|
  {
    if order == [] {
      assert keys == {};
    } else {
      var init, last := order[..|order| - 1], order[|order| - 1];
      assert order == init + [last] && last !in init;
      EnumerationLength(init, keys - {last});
    }
  }

  lemma NothingVisited<T>(order: seq<T>, keys: set<T>)
    requires Enumerates(order, keys)
    ensures keys == {} <==> order == []
  {
    if order != [] {
      assert order[0] in keys;
    }
    if k :| k in keys {
      assert k in order;
    }
  }
}
