/** Small helpers shared by every module of the model. */
module Basics {

  /** A value that may be absent (JavaScript's `null` / `undefined`). */
  datatype Option<T> = None | Some(value: T)

  /** Map lookup that needs no membership precondition. */
  function Get<K, V>(m: map<K, V>, k: K): Option<V>
  {
    if k in m then Some(m[k]) else None
  }

  /** No element of the sequence occurs twice. */
  predicate Distinct<T(==)>(s: seq<T>)
  {
    forall i, j :: 0 <= i < j < |s| ==> s[i] != s[j]
  }

  /** Two maps that agree on every lookup are equal. */
  lemma MapExtensionality<K, V>(m1: map<K, V>, m2: map<K, V>)
    requires forall k :: Get(m1, k) == Get(m2, k)
    ensures m1 == m2
  {
    forall k
      ensures k in m1 <==> k in m2
    {
      assert Get(m1, k).Some? <==> Get(m2, k).Some?;
    }
    forall k | k in m1
      ensures m1[k] == m2[k]
    {
      assert Get(m1, k) == Get(m2, k);
    }
  }
}
