/**
 * The embedded (Level) global-state repository: a table from publicKey to
 * account record. Reads fail with NotFound on an absent key; writes are
 * batches of puts or deletes; `updateGlobalStateAsync` reads and merges
 * every pending delta first and only then writes one batch.
 */
module GlobalStateLevel {
  import opened Basics
  import opened Ledger
  import opened Storage
  import TransactionConverter

  type Table = map<Key, State>

  /** The batch of `putStatesAsync`: each state put under its own publicKey. */
  function PutOps(states: seq<State>): (ops: seq<Op<Key, State>>)
    ensures |ops| == |states|
    ensures forall i :: 0 <= i < |states| ==> ops[i] == Put(states[i].publicKey, states[i])
  {
    seq(|states|, i requires 0 <= i < |states| => Put(states[i].publicKey, states[i]))
  }

  /** The batch of `clearGlobalStateAsync`: delete each scanned state's publicKey. */
  function DelOps(states: seq<State>): (ops: seq<Op<Key, State>>)
    ensures |ops| == |states|
    ensures forall i :: 0 <= i < |states| ==> ops[i] == Del(states[i].publicKey)
  {
    seq(|states|, i requires 0 <= i < |states| => Del(states[i].publicKey))
  }

  /** Every stored record sits under its own publicKey (what `putStatesAsync` keeps true). */
  predicate KeysMatch(table: Table)
  {
    forall k :: k in table ==> table[k].publicKey == k
  }

  /** The merged records `Promise.all` resolves to: each delta added to the value read from the same prior table. */
  function UpdatedStates(table: Table, pending: seq<State>): (merged: seq<State>)
    ensures |merged| == |pending|
    ensures forall i :: 0 <= i < |pending| ==> merged[i] == Merge(Get(table, pending[i].publicKey), pending[i])
  {
    seq(|pending|, i requires 0 <= i < |pending| => Merge(Get(table, pending[i].publicKey), pending[i]))
  }

  /** The table after a successful update with these pending deltas. */
  function UpdateTable(table: Table, pending: seq<State>): Table
  {
    ApplyBatch(table, PutOps(UpdatedStates(table, pending)))
  }

  /**
   * `putStatesAsync` on a batch: a key no state names keeps its record; a
   * state that no later state of the batch overrides is what its key holds.
   */
  lemma PutStatesEffect(table: Table, states: seq<State>)
    ensures forall k :: (forall i :: 0 <= i < |states| ==> states[i].publicKey != k) ==>
              Get(ApplyBatch(table, PutOps(states)), k) == Get(table, k)
    ensures forall i :: 0 <= i < |states| && (forall j :: i < j < |states| ==> states[j].publicKey != states[i].publicKey) ==>
              Get(ApplyBatch(table, PutOps(states)), states[i].publicKey) == Some(states[i])
  {
    var ops := PutOps(states);
    forall k | forall i :: 0 <= i < |states| ==> states[i].publicKey != k
      ensures Get(ApplyBatch(table, ops), k) == Get(table, k)
    {
      ApplyBatchUntouched(table, ops, k);
    }
    forall i | 0 <= i < |states| && (forall j :: i < j < |states| ==> states[j].publicKey != states[i].publicKey)
      ensures Get(ApplyBatch(table, ops), states[i].publicKey) == Some(states[i])
    {
      ApplyBatchLastPut(table, ops, i);
    }
  }

  /** Storing states under their own keys keeps every record under its own key. */
  lemma {:induction false} PutStatesKeepsKeysMatch(table: Table, states: seq<State>)
    requires KeysMatch(table)
    ensures KeysMatch(ApplyBatch(table, PutOps(states)))
  {
    if states != [] {
      var n := |states| - 1;
      PutStatesKeepsKeysMatch(table, states[..n]);
      assert PutOps(states) == PutOps(states[..n]) + [Put(states[n].publicKey, states[n])];
      ApplyBatchAppend(table, PutOps(states[..n]), Put(states[n].publicKey, states[n]));
    }
  }

  /**
   * After a successful update, each account with a pending delta holds its
   * prior record plus the delta (the delta alone when it had none), and every
   * other account is unchanged.
   */
  lemma UpdateTableEffect(table: Table, pending: seq<State>, k: Key)
    requires Distinct(Keys(pending))
    ensures Get(UpdateTable(table, pending), k) ==
              match Lookup(pending, k)
              case Some(d) => Some(Merge(Get(table, k), d))
              case None => Get(table, k)
  {
    var merged := UpdatedStates(table, pending);
    PutStatesEffect(table, merged);
    match IndexOf(pending, k)
    case Some(i) =>
      forall j | i < j < |merged|
        ensures merged[j].publicKey != merged[i].publicKey
      {
        assert Keys(pending)[j] != Keys(pending)[i];
      }
    case None =>
  }

  /** The update is not idempotent: running it twice adds every delta twice. */
  lemma UpdateTwiceAddsTwice(table: Table, pending: seq<State>, k: Key)
    requires Distinct(Keys(pending)) && Lookup(pending, k).Some?
    ensures var d := Lookup(pending, k).value;
      Get(UpdateTable(UpdateTable(table, pending), pending), k)
        == Some(State(k, CoinOf(Get(table, k)) + 2 * d.coin, StakeOf(Get(table, k)) + 2 * d.stake))
  {
    LookupFound(pending, k);
    UpdateTableEffect(table, pending, k);
    UpdateTableEffect(UpdateTable(table, pending), pending, k);
  }

  /** A scan returns the record of every stored key; deleting their publicKeys empties a table whose records sit under their own keys. */
  lemma ClearLeavesNothing(table: Table, keys: seq<Key>, values: seq<State>)
    requires KeysMatch(table)
    requires |values| == |keys|
    requires forall i :: 0 <= i < |keys| ==> keys[i] in table && values[i] == table[keys[i]]
    requires forall k :: k in table ==> k in keys
    ensures ApplyBatch(table, DelOps(values)) == map[]
  {
    var ops := DelOps(values);
    ApplyBatchDeletes(table, ops);
    forall k | k in table
      ensures k in (set i | 0 <= i < |ops| :: ops[i].key)
    {
      var i :| 0 <= i < |keys| && keys[i] == k;
      assert ops[i].key == k;
    }
  }

  /** The publicKeys the stored records carry. */
  function StoredKeys(table: Table): set<Key>
  {
    set k | k in table :: table[k].publicKey
  }

  /** Deleting the publicKeys of a full scan removes exactly the keys the stored records carry. */
  lemma ClearDeletesStoredKeys(table: Table, keys: seq<Key>, values: seq<State>)
    requires |values| == |keys|
    requires forall i :: 0 <= i < |keys| ==> keys[i] in table && values[i] == table[keys[i]]
    requires forall k :: k in table ==> k in keys
    ensures ApplyBatch(table, DelOps(values)) == table - StoredKeys(table)
  {
    var ops := DelOps(values);
    ApplyBatchDeletes(table, ops);
    forall x | x in StoredKeys(table)
      ensures x in (set i | 0 <= i < |ops| :: ops[i].key)
    {
      var k :| k in table && table[k].publicKey == x;
      var i :| 0 <= i < |keys| && keys[i] == k;
      assert ops[i].key == x;
    }
  }

  /** A coin transfer from a stored account to an absent one: the sender is debited, the recipient created with the amount. */
  lemma CoinTransferExample()
    ensures UpdateTable(map["bob" := State("bob", 100, 0)], TransactionConverter.Aggregate([Transaction("bob", "alice", Coin, 50)]))
              == map["alice" := State("alice", 50, 0), "bob" := State("bob", 50, 0)]
  {
    var txs := [Transaction("bob", "alice", Coin, 50)];
    assert txs[..0] == [];
    var pending := TransactionConverter.Aggregate(txs);
    assert pending == [State("alice", 50, 0), State("bob", -50, 0)];
    var ops := PutOps(UpdatedStates(map["bob" := State("bob", 100, 0)], pending));
    assert ops == [Put("alice", State("alice", 50, 0)), Put("bob", State("bob", 50, 0))];
    assert ops[..1] == [Put("alice", State("alice", 50, 0))];
    assert ops[..1][..0] == [];
    var start := map["bob" := State("bob", 100, 0)];
    assert ApplyBatch(start, ops[..1]) == start["alice" := State("alice", 50, 0)];
    assert ApplyBatch(start, ops) == start["alice" := State("alice", 50, 0)]["bob" := State("bob", 50, 0)];
  }

  class GlobalStateLevelRepository {
    /** The embedded store's contents (JSON encoding taken as identity). */
    var table: Table
    /** Keys whose read fails with an error other than not-found. */
    const unreadable: set<Key>

    constructor (initial: Table, failing: set<Key>)
      ensures table == initial && unreadable == failing
    {
      table := initial;
      unreadable := failing;
    }

    ghost predicate Valid()
      reads this
    {
      KeysMatch(table)
    }

    /** `getGlobalStateAsync`: every stored record once, or the scan's error. */
    method GetGlobalState() returns (r: Result<seq<State>>, ghost keys: seq<Key>)
      ensures r.Err? <==> table.Keys * unreadable != {}
      ensures r.Err? ==> r.error == ReadFault
      ensures r.Ok? ==> Distinct(keys) && |r.value| == |keys|
      ensures r.Ok? ==> forall i :: 0 <= i < |keys| ==> keys[i] in table && r.value[i] == table[keys[i]]
      ensures r.Ok? ==> forall k :: k in table ==> k in keys
    {
      r, keys := Scan(table, unreadable);
    }

    /** `getStateAsync`: the stored record, NotFound on an absent key, never a zero record. */
    method GetState(publicKey: Key) returns (r: Result<State>)
      ensures publicKey in unreadable ==> r == Err(ReadFault)
      ensures publicKey !in unreadable ==> (r.Ok? <==> publicKey in table)
      ensures publicKey !in unreadable && publicKey in table ==> r == Ok(table[publicKey])
      ensures publicKey !in unreadable && publicKey !in table ==> r == Err(NotFound)
    {
      if publicKey in unreadable {
        r := Err(ReadFault);
      } else if publicKey in table {
        r := Ok(table[publicKey]);
      } else {
        r := Err(NotFound);
      }
    }

    /** `putStatesAsync`: no input is a no-op; otherwise one batch of puts keyed by publicKey. */
    method PutStates(states: Option<seq<State>>)
      modifies this
      ensures old(Valid()) ==> Valid()
      ensures states.None? ==> table == old(table)
      ensures states.Some? ==> table == ApplyBatch(old(table), PutOps(states.value))
    {
      if states.Some? {
        if Valid() {
          PutStatesKeepsKeysMatch(table, states.value);
        }
        table := ApplyBatch(table, PutOps(states.value));
      }
    }

    /** `convertToUpdatedStateAsync`: the prior record plus the delta; NotFound counts as a zero record. */
    method ConvertToUpdatedState(pending: State) returns (r: Result<State>)
      ensures pending.publicKey in unreadable ==> r == Err(ReadFault)
      ensures pending.publicKey !in unreadable ==> r == Ok(Merge(Get(table, pending.publicKey), pending))
    {
      var read := GetState(pending.publicKey);
      match read
      case Ok(state) =>
        r := Ok(State(pending.publicKey, state.coin + pending.coin, state.stake + pending.stake));
      case Err(e) =>
        if e == NotFound {
          r := Ok(State(pending.publicKey, pending.coin, pending.stake));
        } else {
          r := Err(e);
        }
    }

    /**
     * The read-and-merge half of `updateGlobalStateAsync`: every pending
     * delta merged with the record read from the current table, or the
     * first failed read's error.
     */
    method MergePending(pending: seq<State>) returns (r: Result<seq<State>>)
      ensures r.Ok? <==> AllReadable(pending, unreadable)
      ensures r.Err? ==> r.error == ReadFault
      ensures r.Ok? ==> r.value == UpdatedStates(table, pending)
    {
      var merged: seq<State> := [];
      var i := 0;
      while i < |pending|
        invariant 0 <= i <= |pending|
        invariant merged == UpdatedStates(table, pending[..i])
        invariant AllReadable(pending[..i], unreadable)
      {
        var updated := ConvertToUpdatedState(pending[i]);
        if updated.Err? {
          assert pending[i].publicKey in unreadable;
          return Err(ReadFault);
        }
        assert pending[..i + 1] == pending[..i] + [pending[i]];
        merged := merged + [updated.value];
        i := i + 1;
      }
      assert pending[..i] == pending;
      r := Ok(merged);
    }

    /**
     * `updateGlobalStateAsync`: all reads and merges first; one batch write
     * only if every read succeeded; a failed read leaves the table unchanged.
     */
    method UpdateGlobalState(transactions: seq<Transaction>) returns (r: Outcome)
      modifies this
      ensures old(Valid()) ==> Valid()
      ensures r.Pass? <==> AllReadable(TransactionConverter.Aggregate(transactions), unreadable)
      ensures r.Fail? ==> r.error == ReadFault && table == old(table)
      ensures r.Pass? ==> table == UpdateTable(old(table), TransactionConverter.Aggregate(transactions))
      ensures transactions == [] ==> r.Pass? && table == old(table)
    {
      var pendingStates := TransactionConverter.ConvertToStates(transactions);
      var merged := MergePending(pendingStates);
      if merged.Err? {
        return Fail(merged.error);
      }
      PutStates(Some(merged.value));
      r := Pass;
    }

    /** `clearGlobalStateAsync`: scan, then delete every scanned record's publicKey in one batch. */
    method ClearGlobalState() returns (r: Outcome)
      modifies this
      ensures r.Fail? <==> old(table).Keys * unreadable != {}
      ensures r.Fail? ==> r.error == ReadFault && table == old(table)
      ensures r.Pass? ==> table == old(table) - StoredKeys(old(table))
      ensures r.Pass? && old(Valid()) ==> table == map[]
    {
      var scanned, keys := GetGlobalState();
      if scanned.Err? {
        return Fail(scanned.error);
      }
      ClearDeletesStoredKeys(table, keys, scanned.value);
      if Valid() {
        ClearLeavesNothing(table, keys, scanned.value);
      }
      table := ApplyBatch(table, DelOps(scanned.value));
      r := Pass;
    }
  }
}
