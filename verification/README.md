# Block store, batch handle, relay method and translation header: a Dafny model

The project models four parts of the node and proves what each one keeps over whole histories.

1. **The block store** (`src/blockchain_db/blockchain_db.cpp` over the tables of
   `src/blockchain_db/lmdb/db_lmdb.cpp`). A block adds its transactions one by one to a dozen linked tables: spent
   key images, transaction rows by id, hash index, recorded output indices, global output rows, entries per amount,
   blocks, block infos, heights and spinner heights. Popping a block has to take all of it back.
   * `ChainData`, `Tables`, `BlockStore`: the values, the storage primitives and the operations as functions. An
     exception keeps what was written before it (`Thrown(state, error)`).
   * `BlockchainDB`: the same operations as methods of a class with one field per table. Each method is proved equal
     to its function, loops and partial failures included.
   * `SpentKeys`, `OutputTables`, `Transactions`, `Blocks`: removal against addition, for inputs, outputs, one
     transaction and one block.
   * `TableContents`, `BlockConverse`: the output tables by their contents, what popping does to any accepted block,
     and exactly which blocks it takes back.
   * `Runs`: all histories of pushes and pops, and exactly which of them leave the store the surviving chain builds.
     `Spinners`, `Reorg`, `Lifo`: spinner heights, reorganisations and order of removal over histories.
   * `BlockAgreement`, `OutputNames`, `Agreement`, `Completeness`, `Reachable`: each table described from the plain
     chain, the proof that the description fits one store only, and exactly which histories keep to it.
   * `Acceptance`: exactly which transactions and blocks are accepted, and what is thrown at the others. `Failures`:
     what a call that throws leaves behind.
   * `RctCount`: the RingCT counters. `FirstBlock`, `MisplacedOutput`: concrete blocks, with which the store does well
     or goes wrong.
2. **The scoped batch handle** (`src/blockchain_db/locked_txn.h` over `batch_start`, `batch_stop`, `batch_abort`):
   `LockedTxn` has the two classes and a transition system of any number of handles over one database;
   `ScopedBlocks` puts block additions inside a scope.
3. **The relay method** of a pool transaction: `RelayMethod`.
4. **The generator of embedded translation files** (`translations/generate_translations_header.c`): `Generator`
   prints; `CppText` and `CppTable` read the printed fragment of C++ back, bind pointers to fields and run the scan;
   `GeneratedMeaning`, `GeneratedFrame` and `GeneratedTable` connect the two, and `HeaderConverse` says what comes of
   names and files that are not proper.

## Where the code does not do what one would expect

Each of these is stated with the exact condition under which the code does meet the property, and most with a concrete
input that shows the failure.

* `add_transaction` stores outputs under amount 0 for version 2 with *some* gen input; removal looks under amount 0
  for version 2 or more with a gen input *alone*. A transaction of version 2 with a gen input among several inputs and
  an amount that is not 0 cannot be taken back (`Transactions.RemoveUndoesAddIff`, `Transactions.ReversibleMeaning`,
  `Transactions.TwoGensCannotBeRemoved`). A block with such a transaction is not taken back either
  (`BlockConverse.PopRestoresLedgerIff`), and popping it can succeed and remove an output of an older block instead of
  its own (`MisplacedOutput.PopTakesAnOlderOutput`). Over histories: `Runs.PathIndependenceIff`,
  `Reachable.ReachableAgreesIff`.
* A transaction with an unsupported input is skipped quietly, and the undo loop forgets every key image it lists,
  also images spent before (`SpentKeys.AbortRestoresSpentSet`, `SpentKeys.AbortForgetsSpentImage`). Over histories:
  `Reachable.SpentExactnessIff`.
* `remove_block` writes the recorded previous height of the spinner instead of deleting the entry, so the table comes
  back exactly only if the entry was there with that height; what is read comes back exactly if the record is honest
  (`Blocks.PopRestoresAllTablesIff`, `Blocks.PopRestoresSpinnerHeightsIff`). The recorded height is taken from the
  block itself, so it need not be honest; then a wrong height stays (`FirstBlock.WrongRecordSticks`). Over histories
  and reorganisations the exact conditions are `Spinners.SpinnersRightIff` and `Reorg.ReorgRoundTrip`.
* The running RingCT count of a block is carried on from version 4 only (`RctCount.CumulativeStaysRightIff`,
  `RctCount.CumulativeOverChainIff`, `FirstBlock.OlderBlockForgets`).
* A commit that fails in the storage engine ends the batch but leaves its handle active. If another handle opens a
  batch meanwhile, the stale one can end it (`LockedTxn.StaleHandleAbortsAnother`, `LockedTxn.OwnershipIff`,
  `LockedTxn.OpenIffOwnerOverRuns`).
* The comment on `upgrade_relay_method` says it returns true if the method is now the requested one; the code returns
  true only if it changed. The model follows the code. A byte beyond the enumeration is taken for an upgrade and
  leaves fluff (`RelayMethod.MaximumIffKnown`, `RelayMethod.UnknownRequestDowngrades`).
* For an empty file the opening quote is never printed, so the header is not well formed
  (`GeneratedTable.HeaderMeaning`). Names are printed as they are. One with a backslash, a newline, a NUL or a
  trigraph, and no quote, never comes out as itself (`GeneratedMeaning.NameDeclarationReadIff`,
  `HeaderConverse.HeaderMeaningIff`). One with a quote can end its literal and go on as program text, which is beyond
  the fragment read here.

## Reading the model

* Hash functions and commitments are a parameter (`Crypto`). Hashes, keys and the prunable part of a transaction are
  plain numbers that are only copied and compared.
* A table with integer keys refuses an append unless the key is past all others, as the storage engine does
  (`CanAppend`); removal names a key wherever it sits. That removal always meets the last entry is a theorem.
* An out-of-range read, which C++ leaves undefined, ends the call with `UndefinedAccess`.
* `remove_block` reads the spinner's key and height through a pointer into a row it has just deleted; the model reads
  them before.
* `Fault` stands for everything that can make a batch call throw: `Refused` for the checks before any effect (thread,
  open database, batch mode), `IoError` for the storage engine.
* Integers are unbounded.
* In a history an attempt that throws is rolled back, as the batch around it does (`ScopedBlocks.FailedAddLeavesNoTrace`).

## Model

| member | source | states |
|---|---|---|
| `SpentKeys.AddInputsMeaning` | src/blockchain_db/blockchain_db.cpp:185-208 | the input loop succeeds exactly on supported inputs with distinct, unspent images; it then adds just those images and reports a gen input exactly if there is one |
| `SpentKeys.RemoveInputsMeaning` | src/blockchain_db/blockchain_db.cpp:328-334 | the removal loop takes out exactly the images of the inputs, absent ones included without effect |
| `SpentKeys.InputsRoundTrip` | src/blockchain_db/blockchain_db.cpp:185-208 | removing the images of a stored transaction restores the spent set |
| `SpentKeys.AbortedMeaning` | src/blockchain_db/blockchain_db.cpp:196-207 | the loop aborts exactly when there is an unsupported input and those before the first one are spendable; then the images before it were added and all images are removed |
| `SpentKeys.AbortRestoresSpentSet` | src/blockchain_db/blockchain_db.cpp:196-207 | when the abort path is taken, and that it then restores the spent set exactly when none of the listed images was spent before |
| `SpentKeys.AbortOnFreshImages` | src/blockchain_db/blockchain_db.cpp:196-207 | with an unsupported input and distinct, unspent images the call aborts and the spent set is as before |
| `SpentKeys.AbortForgetsSpentImage` | src/blockchain_db/blockchain_db.cpp:196-207 | an image spent earlier is forgotten by the abort path |
| `OutputTables.AddOutputAppends` | src/blockchain_db/lmdb/db_lmdb.cpp:1048-1112 | an accepted output appends one row and one entry, at the index returned, and touches one amount only |
| `OutputTables.RemoveOutputUndoes` | src/blockchain_db/lmdb/db_lmdb.cpp:1160-1196 | removal at the returned index restores both output tables |
| `OutputTables.RemoveOutputsUnwinds` | src/blockchain_db/lmdb/db_lmdb.cpp:1137-1158 | at every point the reverse removal meets the entry its own addition appended |
| `OutputTables.OutputsRoundTrip` | src/blockchain_db/lmdb/db_lmdb.cpp:1137-1158 | adding all outputs and removing them last to first changes nothing |
| `OutputTables.OutputsRestoredIff` | src/blockchain_db/lmdb/db_lmdb.cpp:1152-1157 | the output tables come back exactly when each output is looked for under the amount it was stored under |
| `OutputTables.AddOutputsGrowZero` | src/blockchain_db/blockchain_db.cpp:216-233 | the output loop grows the amount-0 entries by the outputs stored under 0 |
| `Transactions.ReversibleMeaning` | src/blockchain_db/blockchain_db.cpp:220-226 | the reversible transactions in terms of version, inputs and amounts, of all and of the versions that can be stored |
| `Transactions.StoredShape` | src/blockchain_db/blockchain_db.cpp:161-235 | a stored transaction had fresh rows, spendable inputs and a known version; every table after it, row by row |
| `Transactions.UnsupportedShape` | src/blockchain_db/blockchain_db.cpp:196-207 | with an unsupported input only the spent set changes, by losing the listed images |
| `Transactions.StoredIsRead` | src/blockchain_db/lmdb/db_lmdb.cpp:3062-3096 | a stored transaction is read back whole |
| `Transactions.RemoveStored` | src/blockchain_db/lmdb/db_lmdb.cpp:972-1046 | removing a stored transaction restores all its rows and comes down to removing its outputs, whatever happened to the output tables since |
| `Transactions.RemoveTransactionCounts` | src/blockchain_db/blockchain_db.cpp:324-338 | a successful removal takes exactly one transaction row |
| `Transactions.RemoveUndoesAddIff` | src/blockchain_db/blockchain_db.cpp:324-338 | among all accepted transactions, removal restores the ledger exactly for the reversible ones |
| `Transactions.TwoGensCannotBeRemoved` | src/blockchain_db/lmdb/db_lmdb.cpp:1152-1157 | a version-2 transaction with two gen inputs is accepted and cannot be removed |
| `Blocks.LoopStates` | src/blockchain_db/blockchain_db.cpp:264-280 | the ledger at every iteration of the loop over the transactions |
| `Blocks.PopRetracesAdd` | src/blockchain_db/blockchain_db.cpp:308-315 | the pop loop goes back through the ledgers of the add loop and gives the transactions back last first |
| `Blocks.RemoveUndoesPut` | src/blockchain_db/lmdb/db_lmdb.cpp:840-882 | removing the top block restores blocks, infos and heights and writes the recorded spinner height |
| `Blocks.PopUndoesAdd` | src/blockchain_db/blockchain_db.cpp:302-317 | pop after add returns the block and its transactions and restores every table but the spinner's entry |
| `Blocks.PopRestoresAllTablesIff` | src/blockchain_db/lmdb/db_lmdb.cpp:876-881 | all tables are restored exactly when the spinner's entry was there with the recorded height |
| `Blocks.PopRestoresSpinnerHeightsIff` | src/blockchain_db/lmdb/db_lmdb.cpp:2445-2466 | every spinner height reads as before exactly when the record was the height read then |
| `Blocks.RestoredMeansSupported` | src/blockchain_db/blockchain_db.cpp:302-317 | if pop leaves as many transaction rows as there were before the block, no transaction of it had an unsupported input |
| `TableContents.RemoveOutputMeaning` | src/blockchain_db/lmdb/db_lmdb.cpp:1160-1196 | removal succeeds exactly where there is an entry with its row, and every other lookup stays |
| `TableContents.RemoveSlotsMeaning` | src/blockchain_db/lmdb/db_lmdb.cpp:1137-1196 | any list of removals succeeds exactly on distinct slots with a row of its own each, and takes out just these |
| `BlockConverse.AddOutputsPlaces` | src/blockchain_db/blockchain_db.cpp:212-234 | every output gets the index foretold from the tables and the amounts before it |
| `BlockConverse.BlockPlaces` | src/blockchain_db/blockchain_db.cpp:260-280 | the same over all transactions of a block, and removal from where the outputs were stored would undo them |
| `BlockConverse.PopSeeks` | src/blockchain_db/blockchain_db.cpp:302-317 | what popping does to any block all of whose transactions were stored: when it succeeds, what it restores, and what it leaves of the output tables |
| `BlockConverse.RestoredMeansReversible` | src/blockchain_db/blockchain_db.cpp:302-317 | a pop that gives the output tables back has looked for every output where it was stored |
| `BlockConverse.PopRestoresLedgerIff` | src/blockchain_db/blockchain_db.cpp:302-317 | among all accepted blocks, pop restores the ledger exactly for the reversible ones, and then gives the whole block back |
| `MisplacedOutput.PopTakesAnOlderOutput` | src/blockchain_db/lmdb/db_lmdb.cpp:1152-1157 | popping a block with two gen inputs succeeds, removes the output of the block below and leaves its own |
| `Runs.AddBlockIgnoresSpinners` | src/blockchain_db/lmdb/db_lmdb.cpp:747-838 | adding a block never reads the spinner table and sets one entry of it |
| `Runs.PopBlockIgnoresSpinners` | src/blockchain_db/lmdb/db_lmdb.cpp:840-882 | popping a block never reads the spinner table and sets one entry of it |
| `Runs.BlocksFollowTheChain` | src/blockchain_db/blockchain_db.cpp:237-317 | after any attempted pushes and pops at all the block tables are those described from the surviving chain |
| `Runs.ChainIsChained` | src/blockchain_db/lmdb/db_lmdb.cpp:768-781 | in every history each block of the surviving chain names the one before it as its parent |
| `Runs.PathIndependence` | src/blockchain_db/blockchain_db.cpp:237-317 | after a sound history every table but the spinner heights is the one built from the surviving chain alone |
| `Runs.PathIndependenceIff` | src/blockchain_db/blockchain_db.cpp:237-317 | over any attempted pushes and pops that holds at each point exactly when the history is sound: no irreversible block was taken off |
| `Runs.ReversiblePushesAreSound` | src/blockchain_db/blockchain_db.cpp:237-317 | histories that push reversible blocks only are sound |
| `Spinners.HeightsStepIff` | src/blockchain_db/lmdb/db_lmdb.cpp:876-881 | right spinner heights stay right exactly unless a block with a wrong record is popped |
| `Spinners.SpinnersRightIff` | src/blockchain_db/lmdb/db_lmdb.cpp:2445-2466 | over any history at all the spinner heights are those of the surviving chain at each point exactly when every block popped recorded where its spinner had spun last |
| `Spinners.SpinnersFollowTheChain` | src/blockchain_db/lmdb/db_lmdb.cpp:2445-2466 | the case of honest records: each spinner height is that of the spinner's last surviving block, on every path |
| `Spinners.DishonestRecordSticks` | src/blockchain_db/lmdb/db_lmdb.cpp:876-881 | a wrong record stays in the table after its block is gone |
| `Reorg.InfosOfChain` | src/blockchain_db/lmdb/db_lmdb.cpp:798-822 | the block infos hold all metadata needed to push a block again |
| `Reorg.PopManyMeaning` | src/blockchain_db/blockchain_db.cpp:302-317 | popping any number of reversible blocks from the top succeeds and gives back exactly these, newest first |
| `Reorg.ReorgRoundTrip` | src/blockchain_db/blockchain_db.cpp:302-317 | after a sound history, popping any number of reversible blocks from the top and pushing them again restores every table but the spinner heights, and these exactly when those of the popped blocks' spinners were right |
| `Reorg.HonestReorgRestoresAll` | src/blockchain_db/blockchain_db.cpp:302-317 | the case of honest records: every table is restored |
| `Lifo.TailsBelongToLast` | src/blockchain_db/blockchain_db.cpp:216-234 | a stored transaction's outputs are exactly the tails of their amounts, at its recorded indices |
| `Lifo.PopLoopMeetsTails` | src/blockchain_db/blockchain_db.cpp:308-315 | at each iteration of the pop loop the transaction removed owns exactly the tails of its amounts |
| `Lifo.LastRemovalMeetsTails` | src/blockchain_db/blockchain_db.cpp:316 | after the loop the spinner transaction owns exactly the tails of its amounts, and its removal gives the ledger before the block |
| `Lifo.PopShiftsNothing` | src/blockchain_db/blockchain_db.cpp:302-317 | after a sound history a sound pop leaves every surviving output at its index |
| `OutputNames.AddOutputsNames` | src/blockchain_db/blockchain_db.cpp:212-234 | every output gets its row and, at its recorded index, its entry with key, unlock time, height and commitment; every new entry belongs to one of them |
| `Agreement.AgreesStep` | src/blockchain_db/blockchain_db.cpp:161-235 | a stored transaction extends the list the tables agree with by one |
| `BlockAgreement.CumStep` | src/blockchain_db/lmdb/db_lmdb.cpp:808-817 | the running count recorded with a block is the one described from the chain |
| `BlockAgreement.PutBlockIff` | src/blockchain_db/lmdb/db_lmdb.cpp:765-822 | the low-level `add_block` accepts exactly a block with a new hash whose parent is the top block and that, from version 4 on, is not the first; and what it throws otherwise |
| `Agreement.BuiltAgrees` | src/blockchain_db/blockchain_db.cpp:237-295 | every table of a built ledger is the one described from the stored transactions of its chain, and the spent set too exactly when no skipped transaction lists an image spent before it |
| `Acceptance.GoodOutputsIff` | src/blockchain_db/blockchain_db.cpp:216-233 | no output is refused exactly when all are to keys, version 1 has no amount 0 and version 2 without a gen input has a mask per output |
| `Acceptance.AddOutputsIff` | src/blockchain_db/lmdb/db_lmdb.cpp:1048-1112 | the output loop goes through exactly when no output is refused, and throws what the first refused one calls for |
| `Acceptance.AddTransactionIff` | src/blockchain_db/blockchain_db.cpp:161-235 | a transaction with supported inputs is accepted exactly with spendable inputs, a known version, a hash of no stored transaction and good outputs; and what is thrown at others, in the order of the checks |
| `Acceptance.SkippedIff` | src/blockchain_db/blockchain_db.cpp:185-208 | a transaction with an unsupported input is skipped exactly if the images before that input are spendable |
| `Acceptance.LedgerAfterIff` | src/blockchain_db/blockchain_db.cpp:260-280 | the loop over the transactions goes through exactly when each is accepted on top of those before it |
| `Acceptance.AddBlockIff` | src/blockchain_db/blockchain_db.cpp:237-295 | exactly which blocks are accepted, and what is thrown at the others |
| `Acceptance.PushAcceptedIff` | src/blockchain_db/blockchain_db.cpp:237-295 | after every sound history, the same in terms of the surviving chain |
| `Failures.DuplicateMeaning` | src/blockchain_db/blockchain_db.cpp:185-208 | the input loop stops at the first image spent or listed before, with the images before it added |
| `Failures.AddTxDataLeaves` | src/blockchain_db/lmdb/db_lmdb.cpp:884-968 | which rows a refused transaction leaves, on any tables |
| `Failures.AddOutputsLeaves` | src/blockchain_db/blockchain_db.cpp:216-233 | an output loop that stops leaves what the outputs before the refused one alone would have |
| `Failures.OutputWithoutEntry` | src/blockchain_db/lmdb/db_lmdb.cpp:1048-1112 | an amount table that refuses the entry leaves the row of the output, on any tables |
| `Failures.AddTransactionLeaves` | src/blockchain_db/blockchain_db.cpp:161-235 | everything a refused transaction leaves, by the reason |
| `Failures.IndicesRefused` | src/blockchain_db/blockchain_db.cpp:234 | if the recorded indices are refused everything else stays, on any ledger |
| `Failures.ClashLeaves` | src/blockchain_db/blockchain_db.cpp:185-208 | a transaction refused for an image leaves nothing but images |
| `Failures.PutBlockLeaves` | src/blockchain_db/lmdb/db_lmdb.cpp:747-838 | the low-level `add_block` that throws has touched nothing or has appended the block only |
| `Failures.AddBlockLeaves` | src/blockchain_db/blockchain_db.cpp:237-295 | a refused block leaves what its transactions left, and no block unless the low-level call appended it |
| `Failures.RemoveTransactionIff` | src/blockchain_db/lmdb/db_lmdb.cpp:972-1046 | what a removal needs on any ledger, what it leaves, and what it throws if something is missing |
| `Failures.RemoveUnknown` | src/blockchain_db/blockchain_db.cpp:324-338 | a transaction that is not stored cannot be removed, and nothing is touched |
| `Failures.RemoveDataUnknown` | src/blockchain_db/lmdb/db_lmdb.cpp:972-1046 | the low-level removal of a transaction that is not stored touches nothing, and what it throws |
| `Failures.MissingIndices` | src/blockchain_db/lmdb/db_lmdb.cpp:1137-1158 | too few recorded indices are read past their end before anything is removed |
| `Failures.PrunedIsRead` | src/blockchain_db/blockchain_db.cpp:308-315 | a transaction without its prunable part is read back as its base |
| `Failures.RemoveBlockIff` | src/blockchain_db/lmdb/db_lmdb.cpp:840-882 | what `remove_block` needs on any store; without it nothing is touched |
| `Failures.PopTransactionsStops` | src/blockchain_db/blockchain_db.cpp:308-315 | where the pop loop stops, and what is out and given back by then |
| `Failures.PopBlockLeaves` | src/blockchain_db/blockchain_db.cpp:302-317 | what a pop that throws leaves and gives back |
| `Reachable.ReachableAgrees` | src/blockchain_db/blockchain_db.cpp:237-317 | after a sound history the transaction, output and block tables are those described from the surviving chain |
| `Reachable.ReachableAgreesIff` | src/blockchain_db/blockchain_db.cpp:237-317 | over any attempted pushes and pops that holds at each point exactly when the history is sound |
| `Reachable.IndexSoundness` | src/blockchain_db/blockchain_db.cpp:212-234 | after a sound history each output is found at its recorded index, and each entry is named by exactly one output |
| `Reachable.SpentExactnessIff` | src/blockchain_db/blockchain_db.cpp:185-208 | after a sound history the spent set is the disjoint union of the images of all stored to-key inputs exactly when no skipped transaction lists an image spent before it |
| `Completeness.TablesAreComplete` | src/blockchain_db/blockchain_db.cpp:161-235 | two ledgers whose tables agree with the same list of transactions differ in the spent set at most |
| `Completeness.AgreementIsComplete` | src/blockchain_db/blockchain_db.cpp:161-235 | two ledgers that agree with the same list of transactions are equal |
| `Completeness.BlockAgreementIsComplete` | src/blockchain_db/lmdb/db_lmdb.cpp:798-837 | two sets of block tables that agree with the same chain are equal, running counts included |
| `RctCount.TransactionGrowth` | src/blockchain_db/blockchain_db.cpp:216-233 | how many amount-0 entries one transaction adds |
| `RctCount.CountIsGrowthIff` | src/blockchain_db/blockchain_db.cpp:264-280 | the count equals the growth of the amount-0 entries exactly when the excesses of the transactions cancel |
| `RctCount.ProtocolBlocksCountRight` | src/blockchain_db/blockchain_db.cpp:264-280 | the count is right for every block of the form the protocol makes |
| `RctCount.ReachableTotalIsStored` | src/blockchain_db/blockchain_db.cpp:264-280 | after a sound history the counts summed over the surviving chain equal the amount-0 entries |
| `RctCount.CumulativeStaysRightIff` | src/blockchain_db/lmdb/db_lmdb.cpp:808-817 | a right running count stays right exactly when the block is of version 4 or later or nothing was to carry over |
| `RctCount.CumulativeOverChainIff` | src/blockchain_db/lmdb/db_lmdb.cpp:808-817 | over a chain of blocks that count right the running count is right at every height exactly when every block is of version 4 or later or finds no amount-0 entry below it |
| `FirstBlock.FirstBlockIsAccepted` | src/blockchain_db/blockchain_db.cpp:237-295 | a first block is accepted under any hash functions, and pushing it is an honest, sound history |
| `FirstBlock.WrongRecordSticks` | src/blockchain_db/lmdb/db_lmdb.cpp:876-881 | a first block recorded with a height its spinner never had leaves that height behind when popped |
| `FirstBlock.OlderBlockForgets` | src/blockchain_db/lmdb/db_lmdb.cpp:808-817 | two version-1 blocks after which the running count is wrong |
| `BlockchainDB.Database.AddSpentKey` | src/blockchain_db/lmdb/db_lmdb.cpp:1252-1267 | a spent image is refused, a new one added |
| `BlockchainDB.Database.RemoveSpentKey` | src/blockchain_db/lmdb/db_lmdb.cpp:1269-1286 | the image is gone afterwards, whether or not it was there |
| `BlockchainDB.Database.SpendInputs` | src/blockchain_db/blockchain_db.cpp:185-208 | the input loop, abort path included, has the specified result |
| `BlockchainDB.Database.AddOneOutput` | src/blockchain_db/lmdb/db_lmdb.cpp:1048-1112 | output tables, exception and returned index as specified |
| `BlockchainDB.Database.StoreOutputs` | src/blockchain_db/blockchain_db.cpp:212-233 | the output loop has the specified tables, indices and exceptions |
| `BlockchainDB.Database.RemoveOneOutput` | src/blockchain_db/lmdb/db_lmdb.cpp:1160-1196 | output tables and exceptions as specified |
| `BlockchainDB.Database.RemoveTxOutputs` | src/blockchain_db/lmdb/db_lmdb.cpp:1152-1157 | the reverse loop has the specified tables and exceptions |
| `BlockchainDB.Database.AddTransactionData` | src/blockchain_db/lmdb/db_lmdb.cpp:884-968 | transaction tables, id and exceptions as specified, the version bound included |
| `BlockchainDB.Database.RemoveTransactionData` | src/blockchain_db/lmdb/db_lmdb.cpp:972-1046 | all tables after the removal of a transaction's rows and outputs, also when it throws midway |
| `BlockchainDB.Database.StoreOne` | src/blockchain_db/blockchain_db.cpp:161-235 | `add_transaction` has the specified ledger and exceptions |
| `BlockchainDB.Database.RemoveOne` | src/blockchain_db/blockchain_db.cpp:324-338 | `remove_transaction` has the specified ledger and exceptions |
| `BlockchainDB.Database.AppendBlock` | src/blockchain_db/lmdb/db_lmdb.cpp:747-838 | the low-level `add_block` has the specified tables and exceptions |
| `BlockchainDB.Database.DropBlock` | src/blockchain_db/lmdb/db_lmdb.cpp:840-882 | `remove_block` has the specified tables and exceptions |
| `BlockchainDB.Database.CountZeroOutputs` | src/blockchain_db/blockchain_db.cpp:274-278 | counts the outputs of amount 0 |
| `BlockchainDB.Database.PushBlock` | src/blockchain_db/blockchain_db.cpp:237-295 | `add_block` leaves the specified store, at every point it may throw, and returns the previous height |
| `BlockchainDB.Database.Pop` | src/blockchain_db/blockchain_db.cpp:302-317 | `pop_block` leaves the specified store and gives back the specified block and transactions |
| `LockedTxn.BatchDatabase.BatchStart` | src/blockchain_db/lmdb/db_lmdb.cpp:3758-3799 | opens a batch only if none is open, and says whether it did |
| `LockedTxn.BatchDatabase.BatchStop` | src/blockchain_db/lmdb/db_lmdb.cpp:3838-3865 | makes the writes durable, or ends the batch without them when the storage engine fails |
| `LockedTxn.BatchDatabase.BatchAbort` | src/blockchain_db/lmdb/db_lmdb.cpp:3867-3888 | drops the writes of an open batch |
| `LockedTxn.LockedTXN.Lock` | src/blockchain_db/locked_txn.h:41-44 | a handle is active, and has the batch exactly if it opened it |
| `LockedTxn.LockedTXN.Commit` | src/blockchain_db/locked_txn.h:45 | only an active handle with the batch commits, and stays active if that throws |
| `LockedTxn.LockedTXN.Abort` | src/blockchain_db/locked_txn.h:46-47 | only an active handle with the batch aborts, and stays active if that throws |
| `LockedTxn.DurableStep` | src/blockchain_db/locked_txn.h:45-47 | durable content changes through a successful commit only, and becomes what was written |
| `LockedTxn.NestedHandlesDoNothing` | src/blockchain_db/locked_txn.h:45-47 | a handle without the batch changes nothing |
| `LockedTxn.CreateMeaning` | src/blockchain_db/locked_txn.h:41-44 | creating a handle over an open batch gives an active handle without the batch and changes nothing else, otherwise it opens one; exactly when there is no handle |
| `LockedTxn.NestedNeverOwns` | src/blockchain_db/locked_txn.h:41-47 | a handle created while a batch is open never owns one as long as it lives, on any run |
| `LockedTxn.OwnerMeaning` | src/blockchain_db/locked_txn.h:45-47 | the whole system after the owner commits, aborts or goes out of scope, by the way the call ends |
| `LockedTxn.StaleMeaning` | src/blockchain_db/locked_txn.h:45-47 | an owner left over from a batch that is gone cannot commit or abort |
| `LockedTxn.WriteMeaning` | src/blockchain_db/lmdb/db_lmdb.cpp:3758-3799 | a write is seen inside the batch and not durable |
| `LockedTxn.OneOwnerStep` | src/blockchain_db/locked_txn.h:41-47 | a second owner appears exactly when a batch is opened over a stale handle |
| `LockedTxn.OwnershipIff` | src/blockchain_db/locked_txn.h:39-52 | over every run there is at most one owner exactly when no batch is opened over a stale handle |
| `LockedTxn.OnlyOpenerEnds` | src/blockchain_db/locked_txn.h:39-52 | in such runs a batch is only ended by the handle that opened it |
| `LockedTxn.SafeWithoutIoErrors` | src/blockchain_db/locked_txn.h:39-52 | runs whose commits never fail in the storage engine are such runs, and an owner always has an open batch |
| `LockedTxn.OpenIffOwnerStep` | src/blockchain_db/locked_txn.h:45-47 | "open exactly when owned" is kept exactly by steps that are neither a failed commit nor a refused last abort |
| `LockedTxn.OpenIffOwnerOverRuns` | src/blockchain_db/locked_txn.h:39-52 | over every run a batch is open exactly when it has an owner, at each point, exactly when no step of it is such a disturbance |
| `LockedTxn.DurableComesFromACommit` | src/blockchain_db/locked_txn.h:45 | over any run durable content is the old one or what the last successful commit found written |
| `LockedTxn.ScopeRollsBack` | src/blockchain_db/locked_txn.h:45-47 | a scope that never commits successfully leaves no trace once it has aborted, whatever other handles do and however often its commits or aborts failed before |
| `LockedTxn.StaleHandleAbortsAnother` | src/blockchain_db/locked_txn.h:45-47 | after a failed commit the handle's destructor aborts another handle's batch |
| `ScopedBlocks.WritesMeaning` | src/blockchain_db/blockchain_db.cpp:250-286 | the batch holds whatever the additions left, exception or not |
| `ScopedBlocks.AddAllIsAddMany` | src/blockchain_db/blockchain_db.cpp:237-295 | the additions inside a scope are those of the histories |
| `ScopedBlocks.FailedAddLeavesNoTrace` | src/blockchain_db/blockchain_db.cpp:250-286 | an addition that throws at any point inside a scope leaves the store from before the scope |
| `ScopedBlocks.CommittedAddsAreKept` | src/blockchain_db/locked_txn.h:45 | additions that succeed and are committed are kept exactly |
| `RelayMethod.TxPoolMeta.SetRelayMethod` | src/blockchain_db/blockchain_db.cpp:77-102 | the four flags are those of the method, other fields untouched |
| `RelayMethod.TxPoolMeta.UpgradeRelayMethod` | src/blockchain_db/blockchain_db.cpp:117-130 | flags and result of an upgrade |
| `RelayMethod.SetThenGet` | src/blockchain_db/blockchain_db.cpp:77-115 | a method set is read back exactly if it is a known one, otherwise fluff is |
| `RelayMethod.SetRaisesOneFlag` | src/blockchain_db/blockchain_db.cpp:77-102 | after a set the flag of the method is 1 and every other 0 |
| `RelayMethod.GetMeaning` | src/blockchain_db/blockchain_db.cpp:104-115 | from any four flags the method of the first one set is read, in the order block, none, local, stem, and fluff from none |
| `RelayMethod.RankOrders` | src/blockchain_db/blockchain_db.cpp:117-122 | the methods are ordered none, local, stem, fluff, block, and unknown values lie above |
| `RelayMethod.UpgradeMeaning` | src/blockchain_db/blockchain_db.cpp:117-130 | one upgrade by a known method: the higher rank, the flags, and the answer |
| `RelayMethod.UpgradesComputeMaximum` | src/blockchain_db/blockchain_db.cpp:117-130 | any run of known upgrades ends at the maximum of the start and all requests and reports at most four upgrades |
| `RelayMethod.OrderDoesNotMatter` | src/blockchain_db/blockchain_db.cpp:117-130 | the order of the requests does not matter |
| `RelayMethod.MaximumIffKnown` | src/blockchain_db/blockchain_db.cpp:84-101 | the result is the maximum exactly when every request is a known method |
| `RelayMethod.UnknownRequestDowngrades` | src/blockchain_db/blockchain_db.cpp:92-94 | a request beyond the enumeration leaves fluff, even after block |
| `RelayMethod.MatchesAreKept` | src/blockchain_db/blockchain_db.cpp:47-75 | along any run a match for all, relayable or broadcasted is never lost |
| `RelayMethod.LegacyLostIff` | src/blockchain_db/blockchain_db.cpp:47-75 | a legacy match is lost exactly by leaving none for local or stem |
| `RelayMethod.LegacyRegainedForGood` | src/blockchain_db/blockchain_db.cpp:47-75 | from fluff or block on the legacy match stays |
| `RelayMethod.CategoriesMeaning` | src/blockchain_db/blockchain_db.cpp:47-75 | exactly which methods each category sees, unknown methods and the unknown category included |
| `Generator.PrintBytes` | translations/generate_translations_header.c:56-64 | the byte loop prints the specified escapes and line breaks |
| `Generator.DigitsAre` | translations/generate_translations_header.c:63 | hexadecimal digits are printed in small letters |
| `GeneratedMeaning.BodyLength` | translations/generate_translations_header.c:56-64 | four characters a byte and a new literal every 16 bytes |
| `Generator.PrintFiles` | translations/generate_translations_header.c:49-68 | the file loop prints both declarations of every file |
| `Generator.PrintRows` | translations/generate_translations_header.c:75-77 | the row loop prints one row per file |
| `Generator.Generate` | translations/generate_translations_header.c:37-87 | the whole header as specified |
| `Generator.FindEmbeddedFile` | translations/generate_translations_header.c:25-35 | the generated scan ends at the first row of the queried name, or at the terminator |
| `GeneratedMeaning.EscapeRead` | translations/generate_translations_header.c:63 | a printed escape is read as its byte when no hexadecimal digit follows |
| `GeneratedMeaning.BreakRead` | translations/generate_translations_header.c:57-62 | a line break joins two literals and adds nothing |
| `GeneratedMeaning.RestRead` | translations/generate_translations_header.c:56-65 | from any byte on, the literals are read as exactly the remaining bytes |
| `GeneratedMeaning.DataDeclarationRead` | translations/generate_translations_header.c:55-65 | the printed declaration means the file's bytes exactly if the file is not empty, and is malformed otherwise |
| `GeneratedMeaning.NameDeclarationReadIff` | translations/generate_translations_header.c:54 | the printed declaration of a clean name means that name; that of a name without a quote is malformed or declares the printed identifier, and means the name exactly if it is clean |
| `GeneratedTable.DeclarationsRead` | translations/generate_translations_header.c:49-68 | all declarations bind their own contents exactly when no file is empty |
| `GeneratedFrame.GuardRead` | translations/generate_translations_header.c:45-47 | the header is guarded by a name it defines |
| `GeneratedFrame.StructRead` | translations/generate_translations_header.c:70-73 | the struct has the fields name and data in this order |
| `GeneratedFrame.ScanRead` | translations/generate_translations_header.c:25-35 | the printed function scans to the null name, compares names and gives back data |
| `GeneratedTable.EndingRead` | translations/generate_translations_header.c:70-82 | whatever is declared, the printed rows are read in that struct, with that scan |
| `GeneratedTable.HeaderMeaning` | translations/generate_translations_header.c:45-82 | the header sets up exactly the given files in order, each pointer in its field, with the scan over them, or is malformed if one is empty |
| `HeaderConverse.AnyFilesRead` | translations/generate_translations_header.c:49-68 | with names that cannot end their literals, declarations that are read at all are read to their end; each data is right, each name exactly if it is clean |
| `HeaderConverse.HeaderRow` | translations/generate_translations_header.c:45-82 | row by row: the table has one row per file, its field data pointing to the data of the file, and its field name to the name exactly if that is clean |
| `HeaderConverse.HeaderMeaningIff` | translations/generate_translations_header.c:45-82 | clean names and no empty file give exactly the given files, and among names without quotes nothing else does |
| `GeneratedTable.FindIsFinds` | translations/generate_translations_header.c:25-35 | running the scan as read from the header is what `FindEmbeddedFile` does |
| `GeneratedTable.LookupMeaning` | translations/generate_translations_header.c:25-80 | a lookup run as the printed function says gives the data of the first file of that name and fails exactly if none has it |

## Left out

- HeaderConverse.HeaderMeaningIff: the converse is stated for names without a quote. A name with one can end its literal and continue as program text; what that means (expressions, comments, directives, raw literals) is a matter of the whole of C++, where a name can even be written so that it computes itself.
- GeneratedMeaning.NameDeclarationReadIff: the converse is stated for names without a quote, for the same reason.
- Pruning (`txs_prunable_tip`, `prune_worker`, `prune_outputs`): nothing in the model removes a prunable part, though reading and removing allow for its absence.
- Block and transaction blobs, their parsing and size checks: a value is stored and read back as itself. Of what can keep a transaction from being serialised only the version is modelled, not the checks of its signature data; a hash of a transaction that cannot be serialised is a number like any other, where the code throws a little earlier.
- The wrapper of `pop_block` that opens a write transaction of its own when no batch is open, and the memory-map resizing of `add_block`.
- Hard-fork bookkeeping, statistics, timing and logging, `fixup`, and the lookups that only forward to another call.
- Threads: a call from the wrong thread is a refused call.
- A backslash before a line end, a universal character name and escapes a compiler may add to the standard ones are malformed to the reader; a compiler may accept them, and then reads fewer characters than the name has.
- Of C++ the reader knows the lines the generator prints, with their words left open, and white space only as printed there.
- File opening and its error exits in the generator; overflow of its byte counter.
- 64-bit wrap-around of ids, amounts and counters.
