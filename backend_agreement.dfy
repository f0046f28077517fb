/**
 * The two global-state back ends compared: from the same prior table and
 * the same transaction batch, a successful update leaves the same balance
 * for every account, and they differ only when a read fails.
 */
module BackendAgreement {
  import opened Basics
  import opened Ledger
  import opened Storage
  import TransactionConverter
  import GlobalStateLevel
  import GlobalStateMongo

  /**
   * With every account readable and distinct pending keys, the document
   * store's `findOne` after the update answers, for each account, what the
   * embedded store's `get` answers after its update, both starting from the
   * same accounts.
   */
  lemma {:induction false} UpdatesAgreeAt(docs: seq<State>, unreadable: set<Key>, pending: seq<State>, k: Key)
    requires Distinct(Keys(pending))
    requires AllReadable(pending, unreadable)
    ensures Lookup(GlobalStateMongo.UpdateDocs(docs, unreadable, pending), k)
              == Get(GlobalStateLevel.UpdateTable(GlobalStateMongo.View(docs), pending), k)
  {
    GlobalStateMongo.UpdateDocsLookup(docs, unreadable, pending, k);
    GlobalStateLevel.UpdateTableEffect(GlobalStateMongo.View(docs), pending, k);
    LookupFound(pending, k);
    if Lookup(pending, k).Some? {
      var i :| 0 <= i < |pending| && Keys(pending)[i] == k;
      assert pending[i].publicKey !in unreadable;
    }
  }

  /** The same for the whole table: both variants end with the same accounts and balances. */
  lemma UpdatesAgree(docs: seq<State>, unreadable: set<Key>, pending: seq<State>)
    requires Distinct(Keys(pending))
    requires AllReadable(pending, unreadable)
    ensures GlobalStateMongo.View(GlobalStateMongo.UpdateDocs(docs, unreadable, pending))
              == GlobalStateLevel.UpdateTable(GlobalStateMongo.View(docs), pending)
  {
    var mongo := GlobalStateMongo.View(GlobalStateMongo.UpdateDocs(docs, unreadable, pending));
    var level := GlobalStateLevel.UpdateTable(GlobalStateMongo.View(docs), pending);
    forall k ensures Get(mongo, k) == Get(level, k) {
      UpdatesAgreeAt(docs, unreadable, pending, k);
    }
    MapExtensionality(mongo, level);
  }

  /** The same for a whole transaction batch as `updateGlobalStateAsync` receives it. */
  lemma BatchUpdatesAgree(docs: seq<State>, unreadable: set<Key>, txs: seq<Transaction>)
    requires AllReadable(TransactionConverter.Aggregate(txs), unreadable)
    ensures GlobalStateMongo.View(GlobalStateMongo.UpdateDocs(docs, unreadable, TransactionConverter.Aggregate(txs)))
              == GlobalStateLevel.UpdateTable(GlobalStateMongo.View(docs), TransactionConverter.Aggregate(txs))
  {
    TransactionConverter.AggregateOnePerParty(txs);
    UpdatesAgree(docs, unreadable, TransactionConverter.Aggregate(txs));
  }

  /**
   * Where they differ: with the sender's read failing, the embedded store
   * writes nothing, while the document store still credits the recipient.
   */
  lemma FailedUpdateDiffers()
    ensures var txs := [Transaction("bob", "alice", Coin, 50)];
      TransactionConverter.Aggregate(txs) == [State("alice", 50, 0), State("bob", -50, 0)] &&
      !AllReadable(TransactionConverter.Aggregate(txs), {"bob"}) &&
      GlobalStateMongo.UpdateDocs([], {"bob"}, TransactionConverter.Aggregate(txs)) == [State("alice", 50, 0)]
  {
    var txs := [Transaction("bob", "alice", Coin, 50)];
    assert txs[..0] == [];
    var pending := TransactionConverter.Aggregate(txs);
    assert pending == [State("alice", 50, 0), State("bob", -50, 0)];
    assert !AllReadable(pending, {"bob"}) by {
      assert pending[1].publicKey in {"bob"};
    }
    assert pending[..1] == [State("alice", 50, 0)];
    assert pending[..1][..0] == [];
  }
}
