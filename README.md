# bluckur-database global state and blockchain stores, in Dafny

This project models the storage core of `bluckur-database`, the
persistence layer of the Bluckur blockchain. The core does three things:

- **The transaction converter.** It turns a batch of ledger
  transactions into one signed (coin, stake) delta per account the
  batch touches (`convertToStates`).
- **Two global-state repositories.** Both fold those deltas into the
  table of account records. The embedded key-value (Level) variant reads
  every account first and writes one batch. The document (Mongo) variant
  reads and writes each account on its own.
- **Two block repositories.** They keep blocks keyed by
  `blockHeader.blockNumber`.

Modules, one per source file, plus four that match no single file:

| module | file | models |
|---|---|---|
| `Basics` | basics.dfy | `Option`, map lookup `Get`, `Distinct`, map extensionality |
| `Storage` | storage.dfy | the key-value store: `batch` of put/del operations (`ApplyBatch`), the value stream (`Scan`), error kinds and results |
| `Ledger` | ledger.dfy | transactions, account records, blocks; the "first record with this key" lookup (`IndexOf`, `Lookup`) shared by `Array.prototype.find`, `findOne` and `updateOne`; `Merge` (prior balances, zero when absent, plus a delta) |
| `TransactionConverter` | transaction_converter.dfy | `convertToStates` / `addPendingStateToStates` |
| `GlobalStateLevel` | global_state_level.dfy | the Level global-state repository |
| `GlobalStateMongo` | global_state_mongo.dfy | the Mongo global-state repository |
| `BlockchainLevel` | blockchain_level.dfy | the Level block repository |
| `BlockchainMongo` | blockchain_mongo.dfy | the Mongo block repository |
| `BackendAgreement` | backend_agreement.dfy | the two global-state updates compared |

How the model is built:

- **The converter.** `ConvertToStates` is the source's `forEach` loop.
  It is proved equal to the fold `Aggregate`, whose step `Record` applies
  `AddPending` to the recipient and then to the sender.
  `Aggregate` is in turn proved equal to two independent reference
  definitions:
  - the first-seen list of parties (`FirstSeen(Parties(txs))`);
  - per-account net shares (`NetCoin`, `NetStake`).
- **The stake asymmetry**, reproduced literally:
  - a sender whose entry is created by a stake transaction is not
    debited;
  - a sender whose entry already exists is debited through the generic
    `state[type] += amount * multiplier` path.
- **The Level repositories** hold a `map` field that each batch
  reassigns. Reads of the keys in the class constant `unreadable` fail
  with a non-not-found error (`ReadFault`).
- **The Mongo repositories** hold the collection as a `seq` of documents
  in natural order:
  - `insertMany` appends;
  - `findOne` and `updateOne` act on the first match;
  - `deleteMany` filters.
- **The Mongo update.** `Promise.all` does not cancel the other
  `findAndUpdateAsync` calls. So every readable account is still written
  when one read fails, and the call then reports the failure.
- **Sequential modelling of the Mongo update.** All `findOne` calls are
  issued before any write, but the pending keys are distinct. Reading from
  the partly updated collection therefore gives the same answers as
  reading from the prior one. `UpdateDocsLookup` states the result in
  terms of the prior collection.

## Model

| member | source | states |
|---|---|---|
| Storage.ApplyBatchUntouched | lib/levelDB/repositories/globalStateLevelRepository.js:54 | a batch leaves the value of a key no operation names as it was |
| Storage.ApplyBatchLastPut | lib/levelDB/repositories/globalStateLevelRepository.js:54 | after a batch, a key holds the value of its last put when no later operation touches it |
| Storage.ApplyBatchDeletes | lib/levelDB/repositories/globalStateLevelRepository.js:96 | a batch of deletes removes exactly the named keys |
| Storage.Scan | lib/levelDB/repositories/globalStateLevelRepository.js:14-24 | the value stream fails with a read fault iff some stored key is unreadable; otherwise it yields each stored key's value exactly once and nothing else |
| Ledger.IndexOf | lib/util/transactionConverter.js:5 | `find` returns the first entry with the key; none means no entry has it |
| Ledger.LookupFound | lib/util/transactionConverter.js:5-6 | an entry is found iff its key occurs in the list, and the entry found carries that key |
| Ledger.LookupAppend | lib/util/transactionConverter.js:9-13 | pushing a record: an earlier match still wins, otherwise the pushed record is found; keys gain the new key at the end |
| Ledger.LookupReplace | lib/util/transactionConverter.js:7 | updating the found entry in place changes what its key finds and nothing else; key order is unchanged |
| TransactionConverter.ConvertToStates | lib/util/transactionConverter.js:18-27 | the loop's result: one entry per distinct party, in first-seen order with recipient before sender; each account's entry is exactly its net shares; the coin deltas sum to zero |
| TransactionConverter.AddPendingEffect | lib/util/transactionConverter.js:3-15 | one call: other accounts untouched; the field named by the type moves by +amount (recipient) or -amount (sender), except that a sender's stake is not debited when the call creates the entry; the other field keeps its value (0 on a new entry); the key is appended only if new |
| TransactionConverter.RecordEffect | lib/util/transactionConverter.js:23-24 | one transaction: only its two parties change, each by its coin and stake share |
| TransactionConverter.AggregateOrder | lib/util/transactionConverter.js:20-25 | entries appear in first-seen order of the parties, recipient before sender within a transaction |
| TransactionConverter.FirstSeenSpec | lib/util/transactionConverter.js:5-14 | the first-seen list holds each party once and no one else |
| TransactionConverter.AggregateOnePerParty | lib/util/transactionConverter.js:3-27 | no account has two entries, because `find` runs before every `push` |
| TransactionConverter.AggregateCoversParties | lib/util/transactionConverter.js:20-25 | an account has an entry iff it is a recipient or a sender of the batch |
| TransactionConverter.NetOfStranger | lib/util/transactionConverter.js:20-25 | an account that is no party of the batch is owed no coin and no stake |
| TransactionConverter.AggregateBalances | lib/util/transactionConverter.js:3-27 | an account has an entry iff it is a party, and the entry's coin and stake equal its net shares over the batch |
| TransactionConverter.AggregateExpected | lib/util/transactionConverter.js:3-27 | the entry for each key equals the reference delta: absent for non-parties, net shares for parties |
| TransactionConverter.SelfTransferNeutral | lib/util/transactionConverter.js:23-24 | a transfer from an account to itself leaves an existing entry unchanged and creates a zero entry otherwise |
| TransactionConverter.AddPendingSumCoin | lib/util/transactionConverter.js:7-13 | one call changes the coin sum by exactly +amount or -amount for a coin transaction and by 0 for a stake one |
| TransactionConverter.CoinConserved | lib/util/transactionConverter.js:18-27 | the coin deltas of any batch sum to 0 |
| TransactionConverter.CoinBatchLeavesStake | lib/util/transactionConverter.js:7-12 | a batch of coin transactions only leaves zero stake deltas |
| TransactionConverter.StakeBatchLeavesCoin | lib/util/transactionConverter.js:7-12 | a batch of stake transactions only leaves zero coin deltas |
| TransactionConverter.StakeDebitDependsOnHistory | lib/util/transactionConverter.js:7-12 | a stake sender first seen as sender is not debited; the same sender already holding an entry is debited 30 |
| GlobalStateLevel.PutStatesEffect | lib/levelDB/repositories/globalStateLevelRepository.js:46-54 | each state is stored under its own publicKey, a later duplicate wins, all other keys are unchanged |
| GlobalStateLevel.PutStatesKeepsKeysMatch | lib/levelDB/repositories/globalStateLevelRepository.js:49 | after a put, every stored record still sits under its own publicKey |
| GlobalStateLevel.UpdateTableEffect | lib/levelDB/repositories/globalStateLevelRepository.js:67-128 | after a successful update each touched key holds old plus delta (the delta when absent); untouched keys are unchanged |
| GlobalStateLevel.UpdateTwiceAddsTwice | lib/levelDB/repositories/globalStateLevelRepository.js:113-114 | the update is not idempotent: the same batch applied twice adds each delta twice |
| GlobalStateLevel.ClearDeletesStoredKeys | lib/levelDB/repositories/globalStateLevelRepository.js:88-96 | deleting a full scan's publicKeys removes exactly the keys the stored records carry |
| GlobalStateLevel.ClearLeavesNothing | lib/levelDB/repositories/globalStateLevelRepository.js:85-97 | when every record sits under its own key, clearing leaves the store empty |
| GlobalStateLevel.CoinTransferExample | lib/levelDB/repositories/globalStateLevelRepository.js:67-128 | bob (coin 100) sends 50 coin to absent alice: afterwards alice holds 50 and bob 50 |
| GlobalStateLevel.GlobalStateLevelRepository.constructor | lib/levelDB/repositories/globalStateLevelRepository.js:6-8 | the repository starts over the given store |
| GlobalStateLevel.GlobalStateLevelRepository.GetGlobalState | lib/levelDB/repositories/globalStateLevelRepository.js:10-27 | fails iff a stored key is unreadable; otherwise every stored record exactly once |
| GlobalStateLevel.GlobalStateLevelRepository.GetState | lib/levelDB/repositories/globalStateLevelRepository.js:29-41 | the stored record on a present key; NotFound on an absent key, never a zero record; the read fault on an unreadable key |
| GlobalStateLevel.GlobalStateLevelRepository.PutStates | lib/levelDB/repositories/globalStateLevelRepository.js:43-65 | no input leaves the store unchanged; otherwise the store is the old one after the batch of puts; on any store; a store whose records sit under their own keys keeps that property |
| GlobalStateLevel.GlobalStateLevelRepository.ConvertToUpdatedState | lib/levelDB/repositories/globalStateLevelRepository.js:107-128 | the stored record plus the delta, the delta alone on NotFound, the read fault otherwise |
| GlobalStateLevel.GlobalStateLevelRepository.MergePending | lib/levelDB/repositories/globalStateLevelRepository.js:71-75 | succeeds iff every pending key is readable, and then yields the merged records |
| GlobalStateLevel.GlobalStateLevelRepository.UpdateGlobalState | lib/levelDB/repositories/globalStateLevelRepository.js:67-83 | fails iff some touched account is unreadable, and then nothing is written; on success the store is the updated table; an empty batch changes nothing; on any store, keeping records under their own keys when they were |
| GlobalStateLevel.GlobalStateLevelRepository.ClearGlobalState | lib/levelDB/repositories/globalStateLevelRepository.js:85-105 | fails iff the scan fails, leaving the store; otherwise removes every scanned record's publicKey, which empties a store whose records sit under their own keys |
| GlobalStateMongo.View | lib/mongoDB/repositories/globalStateMongoRepository.js:28 | the table a `findOne` per key sees: the first document with that key |
| GlobalStateMongo.UpsertLookup | lib/mongoDB/repositories/globalStateMongoRepository.js:100-101 | writing a merged record (update of the first match, or insert) makes it what its key finds and changes no other key's answer |
| GlobalStateMongo.UpsertKeepsUnique | lib/mongoDB/repositories/globalStateMongoRepository.js:100-101 | that write never gives a key a second document |
| GlobalStateMongo.UpdateDocsLookup | lib/mongoDB/repositories/globalStateMongoRepository.js:59-108 | after an update, a readable touched account holds old (or 0) plus delta; an unreadable or untouched one is unchanged, even when the call fails |
| GlobalStateMongo.UpdateDocsKeepsUnique | lib/mongoDB/repositories/globalStateMongoRepository.js:59-108 | an update never gives an account a second document |
| GlobalStateMongo.UpdateDocsKeys | lib/mongoDB/repositories/globalStateMongoRepository.js:59-108 | after an update, the accounts with a document are the old ones plus the readable touched ones |
| GlobalStateMongo.GlobalStateMongoRepository.constructor | lib/mongoDB/repositories/globalStateMongoRepository.js:6-8 | the repository starts over the given collection |
| GlobalStateMongo.GlobalStateMongoRepository.GetGlobalState | lib/mongoDB/repositories/globalStateMongoRepository.js:10-23 | every document, or the read fault when one of them cannot be read |
| GlobalStateMongo.GlobalStateMongoRepository.GetState | lib/mongoDB/repositories/globalStateMongoRepository.js:25-42 | an absent key succeeds with no record rather than an error; a present key yields the first document with it |
| GlobalStateMongo.GlobalStateMongoRepository.PutStates | lib/mongoDB/repositories/globalStateMongoRepository.js:44-57 | every given state is appended to the collection |
| GlobalStateMongo.GlobalStateMongoRepository.UpdateOneState | lib/mongoDB/repositories/globalStateMongoRepository.js:110-120 | only the first document with the key changes; no such document, no change |
| GlobalStateMongo.GlobalStateMongoRepository.FindAndUpdate | lib/mongoDB/repositories/globalStateMongoRepository.js:92-108 | on a present key the first document becomes old plus delta; on an absent key a record equal to the delta is inserted; a failed read writes nothing |
| GlobalStateMongo.GlobalStateMongoRepository.ApplyPending | lib/mongoDB/repositories/globalStateMongoRepository.js:63-67 | fails iff some pending key is unreadable; the collection is the per-account update in either case |
| GlobalStateMongo.GlobalStateMongoRepository.UpdateGlobalState | lib/mongoDB/repositories/globalStateMongoRepository.js:59-75 | the same for a transaction batch; a collection with one document per account keeps that property |
| GlobalStateMongo.GlobalStateMongoRepository.ClearGlobalState | lib/mongoDB/repositories/globalStateMongoRepository.js:77-90 | the collection is empty afterwards |
| BackendAgreement.UpdatesAgreeAt | lib/mongoDB/repositories/globalStateMongoRepository.js:92-108 | with every account readable, each account's `findOne` after the Mongo update answers what `get` answers after the Level update, from the same prior records and deltas |
| BackendAgreement.UpdatesAgree | lib/mongoDB/repositories/globalStateMongoRepository.js:92-108 | with every account readable, both variants end with the same table from the same prior records and deltas |
| BackendAgreement.BatchUpdatesAgree | lib/mongoDB/repositories/globalStateMongoRepository.js:59-75 | the same from the same transaction batch |
| BackendAgreement.FailedUpdateDiffers | lib/mongoDB/repositories/globalStateMongoRepository.js:67 | with the sender unreadable, the Mongo variant still credits the recipient while the Level variant writes nothing |
| BlockchainLevel.PutBlocksEffect | lib/levelDB/repositories/blockchainLevelRepository.js:42-54 | each block is stored under its number, a later duplicate number overwrites, other numbers are unchanged; a get of the number returns the block just stored |
| BlockchainLevel.PutBlocksKeepsNumbersMatch | lib/levelDB/repositories/blockchainLevelRepository.js:47 | after a put, every stored block still sits under its own number |
| BlockchainLevel.DeleteBlocksEffect | lib/levelDB/repositories/blockchainLevelRepository.js:62-79 | deleting removes exactly the listed numbers, every other key is unchanged |
| BlockchainLevel.BlockchainLevelRepository.constructor | lib/levelDB/repositories/blockchainLevelRepository.js:5-7 | the repository starts over the given store |
| BlockchainLevel.BlockchainLevelRepository.GetBlockchain | lib/levelDB/repositories/blockchainLevelRepository.js:9-26 | one block per stored number, exactly once, and nothing else: as many blocks as stored numbers, every stored block among them, none that is not stored |
| BlockchainLevel.BlockchainLevelRepository.GetBlock | lib/levelDB/repositories/blockchainLevelRepository.js:28-40 | the stored block, or NotFound on an absent number |
| BlockchainLevel.BlockchainLevelRepository.PutBlocks | lib/levelDB/repositories/blockchainLevelRepository.js:42-60 | on any store, the store after the batch of puts; blocks under their own numbers stay so |
| BlockchainLevel.BlockchainLevelRepository.DeleteBlocks | lib/levelDB/repositories/blockchainLevelRepository.js:62-80 | on any store, the store without the listed numbers; blocks under their own numbers stay so |
| BlockchainMongo.BlockIndex | lib/mongoDB/repositories/blockchainMongoRepository.js:27 | the first block with the number; none means no block has it |
| BlockchainMongo.WithoutNumbers | lib/mongoDB/repositories/blockchainMongoRepository.js:62 | a block stays iff its number is not listed; nothing listed matching, nothing removed |
| BlockchainMongo.BlockchainMongoRepository.constructor | lib/mongoDB/repositories/blockchainMongoRepository.js:5-7 | the repository starts over the given collection |
| BlockchainMongo.BlockchainMongoRepository.GetBlockchain | lib/mongoDB/repositories/blockchainMongoRepository.js:9-22 | every stored block |
| BlockchainMongo.BlockchainMongoRepository.GetBlock | lib/mongoDB/repositories/blockchainMongoRepository.js:24-41 | no block, not an error, when none has the number; otherwise a stored block with that number, the first one |
| BlockchainMongo.BlockchainMongoRepository.PutBlocks | lib/mongoDB/repositories/blockchainMongoRepository.js:43-57 | every given block is appended; the argument-less `findOneAndUpdate()` changes nothing |
| BlockchainMongo.BlockchainMongoRepository.DeleteBlocks | lib/mongoDB/repositories/blockchainMongoRepository.js:59-72 | every block whose number is listed goes, every other stays, in order |

## Left out

- The `index.js` facade is not part of this model. It is a singleton, connect-once logic and promise-forwarding wrappers, so it holds no merge logic.
- Connection wiring (`lib/levelDB/levelDB.js`, `lib/mongoDB/mongoDB.js`) is I/O plumbing and is not modelled. This includes `isConnected`.
- The `level` and `mongoose` drivers are abstracted:
  - the key-value store is a `map`;
  - a collection is a `seq` of documents in natural order;
  - the Level scan order (key order of the stringified keys) is not modelled, so `Scan` may yield the keys in any order;
  - the unique-index behaviour of `insertMany` is unseen, so the collection allows duplicate keys.
- The `createInstance` factories' `Invalid argument(s)` throw on a missing driver handle is not modelled: every constructor takes a store value.
- Concurrency is modelled as sequential execution:
  - interleaving inside `Promise.all` is not modelled;
  - races between concurrent update calls (lost updates) are not modelled.
- Faults are modelled on reads only, as the class constant `unreadable`. A failing `batch`, `insertMany`, `updateOne` or `deleteMany` is not modelled.
- Faults in the block repositories are not modelled: GetBlockchain always succeeds; GetBlock fails only with NotFound.
- JSON encoding and decoding are taken as the identity, so decode errors on corrupt stored values are left out.
- The `debug` logging calls are dropped.
- Amounts and balances are unbounded integers, not JavaScript floating-point numbers.
- `Models.createStateInstance` is assumed to build the record it is given, because the `bluckur-models` package is not part of this model.
- Transaction `type` values other than `coin` and `stake` are not modelled; `Kind` has only these two.
- `GlobalStateMongo.GlobalStateMongoRepository.PutStates` cannot be called with no input. In the source, `insertMany(null)` is driver behaviour.
- Behaviours of the code that the model reproduces as written:
  - A stake transaction debits its sender only when the sender already has an entry (lib/util/transactionConverter.js line 7), not when the call creates it (line 12). `StakeDebitDependsOnHistory` shows both.
  - The converter validates nothing. There is no invalid-transaction error, and amounts may be any integer, negative ones included.
  - In the Mongo update a failed read fails the call while the other accounts are still written (`UpdateDocsLookup`, `FailedUpdateDiffers`).
