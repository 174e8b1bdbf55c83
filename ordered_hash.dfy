/** A Ruby Hash: keys are unique and kept in insertion order; assigning to a key
    that is already present replaces its value in place. */
module OrderedHash {
  import opened Common

  type Hash<K, V> = seq<(K, V)>

  function Keys<K, V>(h: Hash<K, V>): seq<K> {
    if h == [] then [] else [h[0].0] + Keys(h[1..])
  }

  /** `h[k]`: the value stored for `k`, if any. */
  function Get<K(==), V>(h: Hash<K, V>, k: K): (r: Option<V>)
    ensures r.None? <==> k !in Keys(h)
  {
    if h == [] then None else if h[0].0 == k then Some(h[0].1) else Get(h[1..], k)
  }

  /** `h[k] = v`. */
  function Put<K(==,!new), V>(h: Hash<K, V>, k: K, v: V): (r: Hash<K, V>)
    ensures Keys(r) == if k in Keys(h) then Keys(h) else Keys(h) + [k]
    ensures Get(r, k) == Some(v)
    ensures forall k' :: k' != k ==> Get(r, k') == Get(h, k')
  {
    if h == [] then [(k, v)]
    else if h[0].0 == k then [(k, v)] + h[1..]
    else [h[0]] + Put(h[1..], k, v)
  }

  predicate Distinct<T(==)>(s: seq<T>) {
    forall i, j :: 0 <= i < j < |s| ==> s[i] != s[j]
  }

  lemma {:induction false} KeysIndex<K, V>(h: Hash<K, V>)
    ensures |Keys(h)| == |h|
    ensures forall i :: 0 <= i < |h| ==> Keys(h)[i] == h[i].0
  {
    if h != [] {
      KeysIndex(h[1..]);
    }
  }

  /** Storing a key that is not yet present appends one entry at the end. */
  lemma {:induction false} PutFresh<K(!new), V>(h: Hash<K, V>, k: K, v: V)
    requires k !in Keys(h)
    ensures Put(h, k, v) == h + [(k, v)]
  {
    if h != [] {
      PutFresh(h[1..], k, v);
    }
  }

  lemma DistinctAppend<T>(s: seq<T>, x: T)
    requires Distinct(s) && x !in s
    ensures Distinct(s + [x])
  {
  }
}
