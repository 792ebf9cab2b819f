/**
 * Python dictionaries keep their keys in insertion order. The plugin iterates
 * over two of them (the voice catalog of a locale and a voice's speaker map),
 * so both are modelled as a sequence of (key, value) pairs with distinct keys.
 */
module OrderedDict {
  import opened Wrappers

  /** No key occurs twice, as in any Python dict. */
  ghost predicate DistinctKeys<K, V>(m: seq<(K, V)>) {
    forall i, j :: 0 <= i < j < |m| ==> m[i].0 != m[j].0
  }

  /** `[k for k in d]`: the keys, in stored order. */
  function Keys<K(!new), V(!new)>(m: seq<(K, V)>): (ks: seq<K>)
    ensures |ks| == |m|
    ensures forall i :: 0 <= i < |m| ==> ks[i] == m[i].0
    ensures forall k :: k in ks <==> exists v :: (k, v) in m
    ensures DistinctKeys(m) ==> forall i, j :: 0 <= i < j < |ks| ==> ks[i] != ks[j]
  {
    seq(|m|, i requires 0 <= i < |m| => m[i].0)
  }

  /** `d[k]` when `k in d`, None otherwise. */
  function Lookup<K(==,!new), V(!new)>(m: seq<(K, V)>, key: K): (r: Option<V>)
    ensures r.None? <==> key !in Keys(m)
    ensures r.Some? ==> (key, r.value) in m
  {
    if m == [] then None
    else if m[0].0 == key then Some(m[0].1)
    else Lookup(m[1..], key)
  }

  /** In a dict every stored pair is what a lookup of its key returns. */
  lemma LookupFindsEntry<K(!new), V(!new)>(m: seq<(K, V)>, i: nat)
    requires DistinctKeys(m)
    requires i < |m|
    ensures Lookup(m, m[i].0) == Some(m[i].1)
  {
  }
}
