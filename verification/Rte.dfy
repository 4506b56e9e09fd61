/**
 The contracts assumed of the DPDK calls that several programs share.
 A hash table is a finite map keyed by field values. Adding a key that is present overwrites its
 data; adding a new key succeeds or fails (no room, or no free place in its buckets), and `room`
 says which. Deleting a missing key does nothing.
 */
module Rte {

  function HashAdd<K, V>(m: map<K, V>, k: K, v: V, room: bool): map<K, V> {
    if k in m || room then m[k := v] else m
  }

  /** An iteration of a table that does not change meets every key once, in an order of its own. */
  ghost predicate Enumerates<K(!new), V>(order: seq<K>, m: map<K, V>) {
    && (forall k :: k in m <==> k in order)
    && (forall i, j :: 0 <= i < j < |order| ==> order[i] != order[j])
  }

  /** The order in which a loop over `rte_hash_iterate` meets the keys of a table it leaves alone. */
  method IterationOrder<K(==, !new), V>(m: map<K, V>) returns (order: seq<K>)
    ensures Enumerates(order, m)
  {
    order := [];
    var rest := m.Keys;
    while rest != {}
      invariant rest <= m.Keys && forall k :: k in order <==> k in m && k !in rest
      invariant forall i, j :: 0 <= i < j < |order| ==> order[i] != order[j]
      decreases rest
    {
      var k :| k in rest;
      rest := rest - {k};
      order := order + [k];
    }
  }

  /** An injective map has as many keys as values. */
  lemma {:induction false} InjectiveSize<K, V>(m: map<K, V>)
    requires forall j, k :: j in m && k in m && m[j] == m[k] ==> j == k
    ensures |m.Keys| == |m.Values|
  {
    if m != map[] {
      var k :| k in m;
      var rest := m - {k};
      InjectiveSize(rest);
      assert m.Keys == rest.Keys + {k};
      assert m.Values == rest.Values + {m[k]} by {
        forall v | v in m.Values ensures v in rest.Values + {m[k]} {
          var j :| j in m && m[j] == v;
          assert j != k ==> j in rest && rest[j] == v;
        }
      }
    }
  }

  lemma RemoveTwice<K, V>(m: map<K, V>, a: set<K>, b: set<K>)
    ensures m - a - b == m - (a + b)
  {
  }
}
