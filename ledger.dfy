/**
 * The records of the ledger: transactions, account states and blocks, and the
 * "first record with this publicKey" lookup that both `Array.prototype.find`
 * in the converter and `findOne` / `updateOne` in the document store perform.
 */
module Ledger {
  import opened Basics

  /** An account's public key. */
  type Key = string

  /** The `type` field of a transaction: which balance it moves. */
  datatype Kind = Coin | Stake

  datatype Transaction = Transaction(sender: Key, recipient: Key, kind: Kind, amount: int)

  /** An account record, and also a pending per-account delta (same shape). */
  datatype State = State(publicKey: Key, coin: int, stake: int)

  datatype BlockHeader = BlockHeader(blockNumber: int, blockHash: string)

  /** A block is opaque to the core except for its number; `payload` stands for everything else. */
  datatype Block = Block(blockHeader: BlockHeader, payload: string)

  /** The balances of a record that may be absent; absent counts as zero. */
  function CoinOf(s: Option<State>): int
  {
    if s.Some? then s.value.coin else 0
  }

  function StakeOf(s: Option<State>): int
  {
    if s.Some? then s.value.stake else 0
  }

  /** The record an update writes for one account: its prior balances (zero when absent) plus the delta. */
  function Merge(prior: Option<State>, delta: State): State
  {
    State(delta.publicKey, CoinOf(prior) + delta.coin, StakeOf(prior) + delta.stake)
  }

  /** The publicKey of every record, in order. */
  function Keys(states: seq<State>): (ks: seq<Key>)
    ensures |ks| == |states|
    ensures forall i :: 0 <= i < |states| ==> ks[i] == states[i].publicKey
  {
    seq(|states|, i requires 0 <= i < |states| => states[i].publicKey)
  }

  /** No read of any of these records' keys fails. */
  predicate AllReadable(states: seq<State>, unreadable: set<Key>)
  {
    forall i :: 0 <= i < |states| ==> states[i].publicKey !in unreadable
  }

  /** The index of the first record whose publicKey is `key`, if any. */
  function IndexOf(states: seq<State>, key: Key): (r: Option<nat>)
    ensures r.Some? ==> r.value < |states| && states[r.value].publicKey == key
    ensures r.Some? ==> forall j :: 0 <= j < r.value ==> states[j].publicKey != key
    ensures r.None? ==> forall j :: 0 <= j < |states| ==> states[j].publicKey != key
  {
    if states == [] then None
    else if states[0].publicKey == key then Some(0)
    else match IndexOf(states[1..], key)
      case None => None
      case Some(i) => Some(i + 1)
  }

  /** The first record whose publicKey is `key`, if any. */
  function Lookup(states: seq<State>, key: Key): Option<State>
  {
    match IndexOf(states, key)
    case None => None
    case Some(i) => Some(states[i])
  }

  lemma LookupFound(states: seq<State>, key: Key)
    ensures Lookup(states, key).Some? <==> key in Keys(states)
    ensures Lookup(states, key).Some? ==> Lookup(states, key).value.publicKey == key
  {
    if key in Keys(states) {
      var i :| 0 <= i < |states| && Keys(states)[i] == key;
      assert states[i].publicKey == key;
    }
  }

  /** Appending a record: earlier matches still win; otherwise the new record is found. */
  lemma LookupAppend(states: seq<State>, x: State, k: Key)
    ensures Lookup(states + [x], k) ==
              if Lookup(states, k).Some? then Lookup(states, k)
              else if x.publicKey == k then Some(x)
              else None
    ensures Keys(states + [x]) == Keys(states) + [x.publicKey]
  {
    var s' := states + [x];
    var r := IndexOf(s', k);
    match IndexOf(states, k)
    case Some(i) =>
      assert s'[i] == states[i];
      assert r == Some(i);
    case None =>
      if x.publicKey == k {
        assert s'[|states|].publicKey == k;
        assert r == Some(|states|);
      } else {
        assert r.None?;
      }
  }

  /** Replacing the first match by a record with the same key: only that key's lookup changes. */
  lemma LookupReplace(states: seq<State>, i: nat, x: State, k: Key)
    requires IndexOf(states, x.publicKey) == Some(i)
    ensures Lookup(states[i := x], k) == if k == x.publicKey then Some(x) else Lookup(states, k)
    ensures Keys(states[i := x]) == Keys(states)
  {
    var s' := states[i := x];
    assert Keys(s') == Keys(states);
    var r := IndexOf(s', k);
    match IndexOf(states, k)
    case Some(j) =>
      assert s'[j].publicKey == k;
      assert r == Some(j);
      assert k == x.publicKey ==> j == i;
    case None =>
      assert r.None?;
  }
}
