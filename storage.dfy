/**
 * The abstract storage driver both backends are modelled on: a keyed table,
 * batches of put/delete operations applied in order, and a scan of all values.
 * Read faults are described by a set of keys whose read fails with an error
 * other than "not found"; write faults are not modelled.
 */
module Storage {
  import opened Basics

  /** NotFound: the key is absent (Level's `err.notFound`); ReadFault: any other read error. */
  datatype Error = NotFound | ReadFault

  /** How a promise settles: resolved with a value or rejected with an error. */
  datatype Result<T> = Ok(value: T) | Err(error: Error)

  /** How a promise without a value settles. */
  datatype Outcome = Pass | Fail(error: Error)

  /** One operation of a `batch` call. */
  datatype Op<K, V> = Put(key: K, value: V) | Del(key: K)

  function ApplyOp<K, V>(m: map<K, V>, op: Op<K, V>): map<K, V>
  {
    match op
    case Put(k, v) => m[k := v]
    case Del(k) => m - {k}
  }

  /** The table after the operations of one batch, applied in order. */
  function ApplyBatch<K, V>(m: map<K, V>, ops: seq<Op<K, V>>): map<K, V>
  {
    if ops == [] then m else ApplyOp(ApplyBatch(m, ops[..|ops| - 1]), ops[|ops| - 1])
  }

  lemma ApplyBatchAppend<K, V>(m: map<K, V>, ops: seq<Op<K, V>>, op: Op<K, V>)
    ensures ApplyBatch(m, ops + [op]) == ApplyOp(ApplyBatch(m, ops), op)
  {
    assert (ops + [op])[..|ops|] == ops;
  }

  /** A key no operation of the batch names keeps its entry (or its absence). */
  lemma {:induction false} ApplyBatchUntouched<K, V>(m: map<K, V>, ops: seq<Op<K, V>>, k: K)
    requires forall i :: 0 <= i < |ops| ==> ops[i].key != k
    ensures Get(ApplyBatch(m, ops), k) == Get(m, k)
  {
    if ops != [] {
      ApplyBatchUntouched(m, ops[..|ops| - 1], k);
    }
  }

  /** The last operation on a key decides it: a put that no later operation overrides is what the key holds. */
  lemma {:induction false} ApplyBatchLastPut<K, V>(m: map<K, V>, ops: seq<Op<K, V>>, i: nat)
    requires i < |ops| && ops[i].Put?
    requires forall j :: i < j < |ops| ==> ops[j].key != ops[i].key
    ensures Get(ApplyBatch(m, ops), ops[i].key) == Some(ops[i].value)
  {
    if i < |ops| - 1 {
      ApplyBatchLastPut(m, ops[..|ops| - 1], i);
    }
  }

  /** A batch of deletions removes exactly the keys it names; deleting an absent key is no error. */
  lemma {:induction false} ApplyBatchDeletes<K, V>(m: map<K, V>, ops: seq<Op<K, V>>)
    requires forall i :: 0 <= i < |ops| ==> ops[i].Del?
    ensures ApplyBatch(m, ops) == m - (set i | 0 <= i < |ops| :: ops[i].key)
  {
    if ops != [] {
      var n := |ops| - 1;
      ApplyBatchDeletes(m, ops[..n]);
      assert (set i | 0 <= i < |ops| :: ops[i].key)
          == (set i | 0 <= i < n :: ops[..n][i].key) + {ops[n].key};
    }
  }

  /**
   * A full scan (`createValueStream`): one value per stored key and nothing
   * else, or ReadFault when some stored key cannot be read. `keys` records
   * which key each returned value was read from.
   */
  method Scan<K, V>(m: map<K, V>, unreadable: set<K>) returns (r: Result<seq<V>>, ghost keys: seq<K>)
    ensures r.Err? <==> m.Keys * unreadable != {}
    ensures r.Err? ==> r.error == ReadFault
    ensures r.Ok? ==> Distinct(keys) && |r.value| == |keys|
    ensures r.Ok? ==> forall i :: 0 <= i < |keys| ==> keys[i] in m && r.value[i] == m[keys[i]]
    ensures r.Ok? ==> forall k :: k in m ==> k in keys
  {
    var rest := m.Keys;
    var values: seq<V> := [];
    keys := [];
    while rest != {}
      invariant rest <= m.Keys
      invariant Distinct(keys) && |values| == |keys|
      invariant forall i :: 0 <= i < |keys| ==>
                  keys[i] in m && keys[i] !in rest && keys[i] !in unreadable && values[i] == m[keys[i]]
      invariant forall k :: k in m && k !in rest ==> k in keys
      decreases rest
    {
      var k :| k in rest;
      if k in unreadable {
        assert k in m.Keys * unreadable;
        r := Err(ReadFault);
        return;
      }
      values := values + [m[k]];
      keys := keys + [k];
      rest := rest - {k};
    }
    assert forall k :: k in m.Keys * unreadable ==> k in keys && k !in unreadable;
    r := Ok(values);
  }
}
