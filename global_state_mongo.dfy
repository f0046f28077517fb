/**
 * The document-store (Mongo) global-state repository: a collection of
 * account documents in natural order. `findOne` and `updateOne` act on the
 * first document with the key, `insertMany` appends, and nothing forces a
 * key to occur only once. `updateGlobalStateAsync` runs one independent
 * read-then-write per pending delta, so a failed read fails the call while
 * the other accounts are still written.
 */
module GlobalStateMongo {
  import opened Basics
  import opened Ledger
  import opened Storage
  import TransactionConverter

  /** The document a `findOne({ publicKey })` answers for each key: the first one. */
  function View(docs: seq<State>): (m: map<Key, State>)
    ensures forall k :: Get(m, k) == Lookup(docs, k)
  {
    var m := map k | k in Keys(docs) :: Lookup(docs, k).value;
    assert forall k :: Get(m, k) == Lookup(docs, k) by {
      forall k ensures Get(m, k) == Lookup(docs, k) { LookupFound(docs, k); }
    }
    m
  }

  /** The write of `findAndUpdateAsync`: `updateOne` on the first match when the key is stored, otherwise `insertMany([s])`. */
  function Upsert(docs: seq<State>, s: State): seq<State>
  {
    match IndexOf(docs, s.publicKey)
    case Some(i) => docs[i := s]
    case None => docs + [s]
  }

  /** Upserting a document makes it what its key's `findOne` answers, and no other key's answer changes. */
  lemma UpsertLookup(docs: seq<State>, s: State, k: Key)
    ensures Lookup(Upsert(docs, s), k) == if k == s.publicKey then Some(s) else Lookup(docs, k)
    ensures Keys(Upsert(docs, s)) == TransactionConverter.AddKey(Keys(docs), s.publicKey)
  {
    LookupFound(docs, s.publicKey);
    match IndexOf(docs, s.publicKey)
    case Some(i) =>
      LookupReplace(docs, i, s, k);
    case None =>
      LookupAppend(docs, s, k);
  }

  /** Upserting never gives a key a second document. */
  lemma UpsertKeepsUnique(docs: seq<State>, s: State)
    requires Distinct(Keys(docs))
    ensures Distinct(Keys(Upsert(docs, s)))
  {
    UpsertLookup(docs, s, s.publicKey);
    var ks := Keys(docs);
    if s.publicKey !in ks {
      var ks' := ks + [s.publicKey];
      forall i, j | 0 <= i < j < |ks'| ensures ks'[i] != ks'[j] {
        if j < |ks| { assert ks'[i] == ks[i] && ks'[j] == ks[j]; }
      }
    }
  }

  /**
   * The collection after `updateGlobalStateAsync` with these pending deltas:
   * each readable account's delta merged with the record found for it and
   * upserted; an unreadable account is skipped.
   */
  function UpdateDocs(docs: seq<State>, unreadable: set<Key>, pending: seq<State>): seq<State>
  {
    if pending == [] then docs
    else
      var done := UpdateDocs(docs, unreadable, pending[..|pending| - 1]);
      var d := pending[|pending| - 1];
      if d.publicKey in unreadable then done
      else Upsert(done, Merge(Lookup(done, d.publicKey), d))
  }

  /**
   * Per account, after an update with distinct pending keys: a readable
   * account with a delta holds its prior record plus the delta; an
   * unreadable one and one without a delta are unchanged, even when the
   * call as a whole fails.
   */
  lemma {:induction false} UpdateDocsLookup(docs: seq<State>, unreadable: set<Key>, pending: seq<State>, k: Key)
    requires Distinct(Keys(pending))
    ensures Lookup(UpdateDocs(docs, unreadable, pending), k) ==
              match Lookup(pending, k)
              case Some(d) => if k in unreadable then Lookup(docs, k) else Some(Merge(Lookup(docs, k), d))
              case None => Lookup(docs, k)
  {
    if pending != [] {
      var n := |pending| - 1;
      var pre, d := pending[..n], pending[n];
      assert pending == pre + [d];
      LookupAppend(pre, d, k);
      assert Distinct(Keys(pre)) by {
        forall i, j | 0 <= i < j < |pre| ensures Keys(pre)[i] != Keys(pre)[j] {
          assert Keys(pending)[i] != Keys(pending)[j];
        }
      }
      UpdateDocsLookup(docs, unreadable, pre, k);
      var done := UpdateDocs(docs, unreadable, pre);
      if d.publicKey !in unreadable {
        UpsertLookup(done, Merge(Lookup(done, d.publicKey), d), k);
        if k == d.publicKey {
          assert Lookup(pre, k).None? by {
            LookupFound(pre, k);
            forall i | 0 <= i < |pre| ensures Keys(pre)[i] != k {
              assert Keys(pending)[i] != Keys(pending)[n];
            }
          }
        }
      }
    }
  }

  /** An update never gives an account a second document. */
  lemma {:induction false} UpdateDocsKeepsUnique(docs: seq<State>, unreadable: set<Key>, pending: seq<State>)
    requires Distinct(Keys(docs))
    ensures Distinct(Keys(UpdateDocs(docs, unreadable, pending)))
  {
    if pending != [] {
      var n := |pending| - 1;
      UpdateDocsKeepsUnique(docs, unreadable, pending[..n]);
      var done := UpdateDocs(docs, unreadable, pending[..n]);
      if pending[n].publicKey !in unreadable {
        UpsertKeepsUnique(done, Merge(Lookup(done, pending[n].publicKey), pending[n]));
      }
    }
  }

  /** After an update, an account has a document iff it had one before or it had a pending delta and a readable record. */
  lemma {:induction false} UpdateDocsKeys(docs: seq<State>, unreadable: set<Key>, pending: seq<State>, k: Key)
    ensures k in Keys(UpdateDocs(docs, unreadable, pending)) <==>
              k in Keys(docs) || (k in Keys(pending) && k !in unreadable)
  {
    if pending != [] {
      var n := |pending| - 1;
      var pre, d := pending[..n], pending[n];
      assert pending == pre + [d];
      LookupAppend(pre, d, k);
      UpdateDocsKeys(docs, unreadable, pre, k);
      var done := UpdateDocs(docs, unreadable, pre);
      if d.publicKey !in unreadable {
        UpsertLookup(done, Merge(Lookup(done, d.publicKey), d), k);
      }
    }
  }

  class GlobalStateMongoRepository {
    /** The collection's documents in natural order (internal fields projected away). */
    var docs: seq<State>
    /** Keys whose `findOne` fails with a driver error. */
    const unreadable: set<Key>

    constructor (initial: seq<State>, failing: set<Key>)
      ensures docs == initial && unreadable == failing
    {
      docs := initial;
      unreadable := failing;
    }

    /** `getGlobalStateAsync`: every document, or the driver's error when one of them cannot be read. */
    method GetGlobalState() returns (r: Result<seq<State>>)
      ensures r.Err? <==> exists i :: 0 <= i < |docs| && docs[i].publicKey in unreadable
      ensures r.Err? ==> r.error == ReadFault
      ensures r.Ok? ==> r.value == docs
    {
      if exists i :: 0 <= i < |docs| && docs[i].publicKey in unreadable {
        r := Err(ReadFault);
      } else {
        r := Ok(docs);
      }
    }

    /** `getStateAsync`: the first document with the key, or none; an absent key is not an error. */
    method GetState(publicKey: Key) returns (r: Result<Option<State>>)
      ensures publicKey in unreadable <==> r.Err?
      ensures r.Err? ==> r.error == ReadFault
      ensures r.Ok? ==> (r.value.Some? <==> publicKey in Keys(docs))
      ensures r.Ok? && r.value.Some? ==> r.value.value.publicKey == publicKey
      ensures r.Ok? ==> r.value == Lookup(docs, publicKey)
    {
      LookupFound(docs, publicKey);
      if publicKey in unreadable {
        r := Err(ReadFault);
      } else {
        r := Ok(Lookup(docs, publicKey));
      }
    }

    /** `putStatesAsync`: `insertMany` appends the documents, duplicates included. */
    method PutStates(states: seq<State>)
      modifies this
      ensures docs == old(docs) + states
    {
      docs := docs + states;
    }

    /** `updateOneStateAsync`: the first document with the key becomes the given one; no document with the key, no change. */
    method UpdateOneState(publicKey: Key, updated: State)
      modifies this
      ensures IndexOf(old(docs), publicKey).Some? ==> docs == old(docs)[IndexOf(old(docs), publicKey).value := updated]
      ensures IndexOf(old(docs), publicKey).None? ==> docs == old(docs)
    {
      match IndexOf(docs, publicKey)
      case Some(i) =>
        docs := docs[i := updated];
      case None =>
    }

    /** `findAndUpdateAsync`: read the account, add the delta, write it back or insert it. */
    method FindAndUpdate(pending: State) returns (r: Outcome)
      modifies this
      ensures r.Fail? <==> pending.publicKey in unreadable
      ensures r.Fail? ==> r.error == ReadFault && docs == old(docs)
      ensures r.Pass? ==> docs == Upsert(old(docs), Merge(Lookup(old(docs), pending.publicKey), pending))
    {
      var read := GetState(pending.publicKey);
      if read.Err? {
        return Fail(read.error);
      }
      var state := read.value;
      var updated := State(pending.publicKey, CoinOf(state) + pending.coin, StakeOf(state) + pending.stake);
      if state.Some? {
        UpdateOneState(pending.publicKey, updated);
      } else {
        PutStates([updated]);
      }
      r := Pass;
    }

    /**
     * The `Promise.all` half of `updateGlobalStateAsync`: one
     * `findAndUpdateAsync` per pending delta; a failed one fails the whole
     * call but does not stop the others.
     */
    method ApplyPending(pending: seq<State>) returns (r: Outcome)
      modifies this
      ensures r.Pass? <==> AllReadable(pending, unreadable)
      ensures r.Fail? ==> r.error == ReadFault
      ensures docs == UpdateDocs(old(docs), unreadable, pending)
    {
      var failed := false;
      var i := 0;
      while i < |pending|
        invariant 0 <= i <= |pending|
        invariant docs == UpdateDocs(old(docs), unreadable, pending[..i])
        invariant failed <==> !AllReadable(pending[..i], unreadable)
      {
        var outcome := FindAndUpdate(pending[i]);
        assert pending[..i + 1][..i] == pending[..i];
        failed := failed || outcome.Fail?;
        i := i + 1;
      }
      assert pending[..i] == pending;
      r := if failed then Fail(ReadFault) else Pass;
    }

    /**
     * `updateGlobalStateAsync`: one read-then-write per pending delta; the
     * call fails if any read failed, but every readable account is written.
     */
    method UpdateGlobalState(transactions: seq<Transaction>) returns (r: Outcome)
      modifies this
      ensures r.Pass? <==> AllReadable(TransactionConverter.Aggregate(transactions), unreadable)
      ensures r.Fail? ==> r.error == ReadFault
      ensures docs == UpdateDocs(old(docs), unreadable, TransactionConverter.Aggregate(transactions))
      ensures Distinct(Keys(old(docs))) ==> Distinct(Keys(docs))
    {
      var pendingStates := TransactionConverter.ConvertToStates(transactions);
      if Distinct(Keys(docs)) {
        UpdateDocsKeepsUnique(docs, unreadable, pendingStates);
      }
      r := ApplyPending(pendingStates);
    }

    /** `clearGlobalStateAsync`: `deleteMany({})` removes every document. */
    method ClearGlobalState()
      modifies this
      ensures docs == []
    {
      docs := [];
    }
  }
}
