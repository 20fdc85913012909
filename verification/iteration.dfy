/**
 How a `for (const [k, v] of map)` loop walks a JavaScript Map: every key
 once. The insertion order the runtime uses is not modelled; a loop over a
 Dafny map reports the order it chose as an enumeration of the keys.
 */
module Iteration {

  /** `order` lists every key of `keys` exactly once. */
  ghost predicate Enumerates<K(!new)>(order: seq<K>, keys: set<K>)
  {
    && (forall i, j :: 0 <= i < j < |order| ==> order[i] != order[j])
    && (forall k :: k in order <==> k in keys)
  }

  lemma EnumeratesExtend<K(!new)>(order: seq<K>, keys: set<K>, k: K)
    requires Enumerates(order, keys)
    requires k !in keys
    ensures Enumerates(order + [k], keys + {k})
  {
    var o := order + [k];
    forall i, j | 0 <= i < j < |o| ensures o[i] != o[j] {
      if j == |order| {
        assert o[i] == order[i] && order[i] in order;
      }
    }
  }
}
