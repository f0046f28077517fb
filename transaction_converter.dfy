/**
 * `convertToStates`: a batch of transactions becomes one signed (coin, stake)
 * delta per account, in the order the accounts are first seen, recipient
 * before sender within a transaction.
 *
 * The sender side carries an asymmetry that the model keeps literally: when a
 * stake transaction creates the sender's entry, the sender's stake is not
 * debited; once the sender has an entry, the generic "add amount times -1 to
 * the field named by the type" path does debit it.
 */
module TransactionConverter {
  import opened Basics
  import opened Ledger

  /** `amount * multiplier`: +amount for the recipient, -amount for the sender. */
  function Signed(amount: int, isRecipient: bool): int
  {
    if isRecipient then amount else -amount
  }

  /** The entry built for a party that has no entry yet. */
  function NewEntry(key: Key, kind: Kind, amount: int, isRecipient: bool): State
  {
    State(key,
          if kind == Coin then Signed(amount, isRecipient) else 0,
          if kind == Stake && isRecipient then amount else 0)
  }

  /** `state[type] += delta` on an existing entry. */
  function Shift(s: State, kind: Kind, delta: int): State
  {
    match kind
    case Coin => s.(coin := s.coin + delta)
    case Stake => s.(stake := s.stake + delta)
  }

  /** `addPendingStateToStates`: adjust the party's existing entry, or push a new one. */
  function AddPending(states: seq<State>, key: Key, kind: Kind, amount: int, isRecipient: bool): seq<State>
  {
    match IndexOf(states, key)
    case Some(i) => states[i := Shift(states[i], kind, Signed(amount, isRecipient))]
    case None => states + [NewEntry(key, kind, amount, isRecipient)]
  }

  /** One step of the `forEach`: recipient first, then sender. */
  function Record(states: seq<State>, t: Transaction): seq<State>
  {
    AddPending(AddPending(states, t.recipient, t.kind, t.amount, true), t.sender, t.kind, t.amount, false)
  }

  /** The list `convertToStates` returns for a batch. */
  function Aggregate(txs: seq<Transaction>): seq<State>
  {
    if txs == [] then [] else Record(Aggregate(txs[..|txs| - 1]), txs[|txs| - 1])
  }

  // ---------------------------------------------------------------------------
  // Reference definitions, independent of the list manipulation above.

  /** Every party of the batch in processing order: recipient, then sender, per transaction. */
  function Parties(txs: seq<Transaction>): seq<Key>
  {
    if txs == [] then []
    else Parties(txs[..|txs| - 1]) + [txs[|txs| - 1].recipient, txs[|txs| - 1].sender]
  }

  function AddKey(ks: seq<Key>, k: Key): seq<Key>
  {
    if k in ks then ks else ks + [k]
  }

  /** The keys of `ks` without repetitions, each at the place it first occurs. */
  function FirstSeen(ks: seq<Key>): seq<Key>
  {
    if ks == [] then [] else AddKey(FirstSeen(ks[..|ks| - 1]), ks[|ks| - 1])
  }

  /** What one transaction adds to an account's coin. */
  function CoinShare(t: Transaction, k: Key): int
  {
    if t.kind == Coin then
      (if k == t.recipient then t.amount else 0) - (if k == t.sender then t.amount else 0)
    else 0
  }

  /**
   * What one transaction adds to an account's stake, `seen` being the parties
   * of the earlier transactions: the sender is debited only when it already
   * has an entry, that is, when it was seen before or is also the recipient.
   */
  function StakeShare(seen: seq<Key>, t: Transaction, k: Key): int
  {
    if t.kind == Stake then
      (if k == t.recipient then t.amount else 0)
      - (if k == t.sender && (k in seen || k == t.recipient) then t.amount else 0)
    else 0
  }

  function NetCoin(txs: seq<Transaction>, k: Key): int
  {
    if txs == [] then 0 else NetCoin(txs[..|txs| - 1], k) + CoinShare(txs[|txs| - 1], k)
  }

  function NetStake(txs: seq<Transaction>, k: Key): int
  {
    if txs == [] then 0
    else NetStake(txs[..|txs| - 1], k) + StakeShare(Parties(txs[..|txs| - 1]), txs[|txs| - 1], k)
  }

  /** The delta the batch owes account k: its net shares if it is a party, nothing otherwise. */
  function Expected(txs: seq<Transaction>, k: Key): Option<State>
  {
    if k in Parties(txs) then Some(State(k, NetCoin(txs, k), NetStake(txs, k))) else None
  }

  function SumCoin(states: seq<State>): int
  {
    if states == [] then 0 else SumCoin(states[..|states| - 1]) + states[|states| - 1].coin
  }

  // ---------------------------------------------------------------------------
  // The operation.

  /** `convertToStates`: the `forEach` over the batch, building the list of deltas. */
  method ConvertToStates(transactions: seq<Transaction>) returns (states: seq<State>)
    ensures states == Aggregate(transactions)
    ensures Keys(states) == FirstSeen(Parties(transactions))
    ensures Distinct(Keys(states))
    ensures forall k :: k in Keys(states) <==> k in Parties(transactions)
    ensures forall k :: Lookup(states, k) == Expected(transactions, k)
    ensures SumCoin(states) == 0
  {
    states := [];
    var i := 0;
    while i < |transactions|
      invariant 0 <= i <= |transactions|
      invariant states == Aggregate(transactions[..i])
    {
      var t := transactions[i];
      states := AddPending(states, t.recipient, t.kind, t.amount, true);
      states := AddPending(states, t.sender, t.kind, t.amount, false);
      assert transactions[..i + 1][..i] == transactions[..i];
      i := i + 1;
    }
    assert transactions[..i] == transactions;
    AggregateOrder(transactions);
    AggregateOnePerParty(transactions);
    AggregateCoversParties(transactions);
    forall k
      ensures Lookup(states, k) == Expected(transactions, k)
    {
      AggregateExpected(transactions, k);
    }
    CoinConserved(transactions);
  }

  // ---------------------------------------------------------------------------
  // Properties.

  /**
   * One call of `addPendingStateToStates`: other accounts are untouched; the
   * party ends up with an entry whose field named by the type moves by
   * +amount (recipient) or -amount (sender), except that a sender's stake is
   * not debited when this call creates the entry; the other field keeps its
   * value (zero on a new entry).
   */
  lemma AddPendingEffect(states: seq<State>, key: Key, kind: Kind, amount: int, isRecipient: bool, k: Key)
    ensures var r := AddPending(states, key, kind, amount, isRecipient);
      && (k != key ==> Lookup(r, k) == Lookup(states, k))
      && (k == key ==>
            && Lookup(r, k).Some?
            && Lookup(r, k).value.publicKey == key
            && Lookup(r, k).value.coin
                 == CoinOf(Lookup(states, k)) + (if kind == Coin then Signed(amount, isRecipient) else 0)
            && Lookup(r, k).value.stake
                 == StakeOf(Lookup(states, k))
                    + (if kind == Stake && (isRecipient || Lookup(states, k).Some?)
                       then Signed(amount, isRecipient) else 0))
    ensures Keys(AddPending(states, key, kind, amount, isRecipient)) == AddKey(Keys(states), key)
  {
    LookupFound(states, key);
    match IndexOf(states, key)
    case Some(i) =>
      LookupReplace(states, i, Shift(states[i], kind, Signed(amount, isRecipient)), k);
    case None =>
      LookupAppend(states, NewEntry(key, kind, amount, isRecipient), k);
  }

  /** Entries appear in first-seen order of the parties, recipient before sender. */
  lemma {:induction false} AggregateOrder(txs: seq<Transaction>)
    ensures Keys(Aggregate(txs)) == FirstSeen(Parties(txs))
  {
    if txs != [] {
      var pre, t := txs[..|txs| - 1], txs[|txs| - 1];
      AggregateOrder(pre);
      var a := Aggregate(pre);
      var a1 := AddPending(a, t.recipient, t.kind, t.amount, true);
      AddPendingEffect(a, t.recipient, t.kind, t.amount, true, t.recipient);
      AddPendingEffect(a1, t.sender, t.kind, t.amount, false, t.sender);
      var p := Parties(pre);
      assert Parties(txs) == p + [t.recipient, t.sender];
      assert (p + [t.recipient, t.sender])[..|p| + 1] == p + [t.recipient];
      assert (p + [t.recipient])[..|p|] == p;
    }
  }

  /** FirstSeen keeps every key once and adds none. */
  lemma {:induction false} FirstSeenSpec(ks: seq<Key>)
    ensures Distinct(FirstSeen(ks))
    ensures forall k :: k in FirstSeen(ks) <==> k in ks
  {
    if ks != [] {
      var pre := ks[..|ks| - 1];
      FirstSeenSpec(pre);
      assert ks == pre + [ks[|ks| - 1]];
    }
  }

  /** At most one entry per account: `find` runs before every `push`. */
  lemma {:induction false} AggregateOnePerParty(txs: seq<Transaction>)
    ensures Distinct(Keys(Aggregate(txs)))
  {
    AggregateOrder(txs);
    FirstSeenSpec(Parties(txs));
  }

  /** The accounts with an entry are exactly the recipients and senders of the batch. */
  lemma {:induction false} AggregateCoversParties(txs: seq<Transaction>)
    ensures forall k :: k in Keys(Aggregate(txs)) <==> k in Parties(txs)
  {
    AggregateOrder(txs);
    FirstSeenSpec(Parties(txs));
  }

  /** An account that is no party of the batch is owed nothing. */
  lemma {:induction false} NetOfStranger(txs: seq<Transaction>, k: Key)
    requires k !in Parties(txs)
    ensures NetCoin(txs, k) == 0 && NetStake(txs, k) == 0
  {
    if txs != [] {
      var pre := txs[..|txs| - 1];
      assert Parties(txs) == Parties(pre) + [txs[|txs| - 1].recipient, txs[|txs| - 1].sender];
      NetOfStranger(pre, k);
    }
  }

  /**
   * One transaction, on a list whose keys are `Keys(states)`: the two parties'
   * entries move by their shares, every other account is untouched.
   */
  lemma RecordEffect(states: seq<State>, t: Transaction, k: Key)
    ensures Lookup(Record(states, t), k) ==
              if k != t.recipient && k != t.sender then Lookup(states, k)
              else Some(State(k, CoinOf(Lookup(states, k)) + CoinShare(t, k),
                                 StakeOf(Lookup(states, k)) + StakeShare(Keys(states), t, k)))
  {
    var a1 := AddPending(states, t.recipient, t.kind, t.amount, true);
    AddPendingEffect(states, t.recipient, t.kind, t.amount, true, k);
    AddPendingEffect(a1, t.sender, t.kind, t.amount, false, k);
    AddPendingEffect(states, t.recipient, t.kind, t.amount, true, t.sender);
    LookupFound(states, k);
    LookupFound(states, t.sender);
  }

  /** Each account's entry holds exactly its net coin and stake shares over the batch. */
  lemma {:induction false} AggregateBalances(txs: seq<Transaction>, k: Key)
    ensures Lookup(Aggregate(txs), k).Some? <==> k in Parties(txs)
    ensures CoinOf(Lookup(Aggregate(txs), k)) == NetCoin(txs, k)
    ensures StakeOf(Lookup(Aggregate(txs), k)) == NetStake(txs, k)
  {
    if txs != [] {
      var pre, t := txs[..|txs| - 1], txs[|txs| - 1];
      AggregateBalances(pre, k);
      assert StakeShare(Keys(Aggregate(pre)), t, k) == StakeShare(Parties(pre), t, k) by {
        AggregateCoversParties(pre);
      }
      RecordEffect(Aggregate(pre), t, k);
      assert Parties(txs) == Parties(pre) + [t.recipient, t.sender];
    }
  }

  /** The same, as one lookup: the entry for k is exactly the delta the batch owes k. */
  lemma AggregateExpected(txs: seq<Transaction>, k: Key)
    ensures Lookup(Aggregate(txs), k) == Expected(txs, k)
  {
    AggregateBalances(txs, k);
    LookupFound(Aggregate(txs), k);
  }

  /** A transaction from an account to itself moves no balance of that account. */
  lemma SelfTransferNeutral(states: seq<State>, t: Transaction)
    requires t.sender == t.recipient
    ensures Lookup(states, t.sender).Some? ==> Record(states, t) == states
    ensures Lookup(states, t.sender).None? ==> Record(states, t) == states + [State(t.sender, 0, 0)]
  {
    var k := t.sender;
    match IndexOf(states, k)
    case Some(i) =>
      var s1 := states[i := Shift(states[i], t.kind, t.amount)];
      LookupReplace(states, i, Shift(states[i], t.kind, t.amount), k);
      assert IndexOf(s1, k) == Some(i);
      assert s1[i := Shift(s1[i], t.kind, -t.amount)] == states;
    case None =>
      var s1 := states + [NewEntry(k, t.kind, t.amount, true)];
      assert forall j :: 0 <= j < |states| ==> s1[j].publicKey != k;
      assert s1[|states|].publicKey == k;
      assert IndexOf(s1, k) == Some(|states|);
  }

  lemma {:induction false} SumCoinReplace(states: seq<State>, i: nat, x: State)
    requires i < |states|
    ensures SumCoin(states[i := x]) == SumCoin(states) - states[i].coin + x.coin
  {
    var n := |states| - 1;
    if i < n {
      SumCoinReplace(states[..n], i, x);
      assert states[i := x][..n] == states[..n][i := x];
    } else {
      assert states[i := x][..n] == states[..n];
    }
  }

  lemma SumCoinAppend(states: seq<State>, x: State)
    ensures SumCoin(states + [x]) == SumCoin(states) + x.coin
  {
    assert (states + [x])[..|states|] == states;
  }

  /** One call moves the total coin by the signed amount of a coin transaction, and not at all otherwise. */
  lemma AddPendingSumCoin(states: seq<State>, key: Key, kind: Kind, amount: int, isRecipient: bool)
    ensures SumCoin(AddPending(states, key, kind, amount, isRecipient))
         == SumCoin(states) + (if kind == Coin then Signed(amount, isRecipient) else 0)
  {
    match IndexOf(states, key)
    case Some(i) =>
      SumCoinReplace(states, i, Shift(states[i], kind, Signed(amount, isRecipient)));
    case None =>
      SumCoinAppend(states, NewEntry(key, kind, amount, isRecipient));
  }

  /** Coin is conserved: the coin deltas of any batch sum to zero. */
  lemma {:induction false} CoinConserved(txs: seq<Transaction>)
    ensures SumCoin(Aggregate(txs)) == 0
  {
    if txs != [] {
      var pre, t := txs[..|txs| - 1], txs[|txs| - 1];
      CoinConserved(pre);
      var a := Aggregate(pre);
      AddPendingSumCoin(a, t.recipient, t.kind, t.amount, true);
      AddPendingSumCoin(AddPending(a, t.recipient, t.kind, t.amount, true), t.sender, t.kind, t.amount, false);
    }
  }

  /** A batch of coin transfers only produces zero stake deltas. */
  lemma {:induction false} CoinBatchLeavesStake(txs: seq<Transaction>)
    requires forall i :: 0 <= i < |txs| ==> txs[i].kind == Coin
    ensures forall i :: 0 <= i < |Aggregate(txs)| ==> Aggregate(txs)[i].stake == 0
  {
    if txs != [] {
      var pre, t := txs[..|txs| - 1], txs[|txs| - 1];
      CoinBatchLeavesStake(pre);
      var a := Aggregate(pre);
      var a1 := AddPending(a, t.recipient, t.kind, t.amount, true);
      assert forall i :: 0 <= i < |a1| ==> a1[i].stake == 0;
    }
  }

  /** A batch of stake transfers only produces zero coin deltas. */
  lemma {:induction false} StakeBatchLeavesCoin(txs: seq<Transaction>)
    requires forall i :: 0 <= i < |txs| ==> txs[i].kind == Stake
    ensures forall i :: 0 <= i < |Aggregate(txs)| ==> Aggregate(txs)[i].coin == 0
  {
    if txs != [] {
      var pre, t := txs[..|txs| - 1], txs[|txs| - 1];
      StakeBatchLeavesCoin(pre);
      var a := Aggregate(pre);
      var a1 := AddPending(a, t.recipient, t.kind, t.amount, true);
      assert forall i :: 0 <= i < |a1| ==> a1[i].coin == 0;
    }
  }

  /**
   * Whether a stake transfer debits its sender depends on the batch's
   * history: a sender first seen as the sender is not debited, a sender
   * already holding an entry is.
   */
  lemma StakeDebitDependsOnHistory()
    ensures Aggregate([Transaction("bob", "alice", Stake, 30)])
              == [State("alice", 0, 30), State("bob", 0, 0)]
    ensures Aggregate([Transaction("carol", "bob", Coin, 1), Transaction("bob", "alice", Stake, 30)])
              == [State("bob", 1, -30), State("carol", -1, 0), State("alice", 0, 30)]
  {
    var t1, t2 := Transaction("carol", "bob", Coin, 1), Transaction("bob", "alice", Stake, 30);
    assert [t2][..0] == [];
    assert [t1, t2][..1] == [t1];
    assert [t1][..0] == [];
    assert Aggregate([t1]) == [State("bob", 1, 0), State("carol", -1, 0)];
  }
}
