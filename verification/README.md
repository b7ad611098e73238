# Verified model of the splora chain index

This project models the index of splora, an electrs-style Bitcoin chain index, in Dafny 4.11 and
proves what the index is for: after any run of block extensions, reorganisations and restarts the
databases are those of a rebuild from scratch, and every query answers from a real chain state.
`dafny verify dfyconfig.toml` checks the whole project.

## What is modelled

Block hashes, txids and script hashes are abstract numbers; a hash determines its block and a txid
its transaction. The node is a tree of valid blocks (`Daemon.Node`). Valid chains (`Chain.ValidChain`)
have unique txids (BIP 30), inputs that spend earlier spendable outputs, at most 65535
transactions per block, fewer than 2^32 blocks, and fields that fit the types they are decoded into.
A database is a set of rows, which queries scan by their byte keys; a write batch is one step and
each deleted row is one step. The non-Liquid build is modelled, without light mode and with
`address_search` off.

| module | what it holds |
|---|---|
| Chain, History, Balance, Statistics | transactions and blocks, the history of a script, its folds and the consensus ledger |
| Headers, Daemon | the header list that survives reorganisations, and how it follows the node |
| TxStore, HistStore, Visibility | the rows of a chain, and what a query sees of a database that is being changed |
| RowMeaning, ScriptMeaning, SummaryMeaning, Amounts | what rows, unspent outputs, statistics and summaries are, in terms of the blocks alone |
| Store, ChainQuery | the shared state, and `utxo` and `stats` with their caches |
| Rollover, Batches, Indexer | one update as a sequence of database steps, with queries between them |
| Lifecycle, Lapses | opening a store, whole runs, and inputs on which the conditions of an update fail |
| Codec, Scan, Merge, Summaries, Cursor, Paging | keys as bytes, scans, the reverse merge, address summaries and pages |
| Mempool, Overlay | the mempool index under interleaved additions, and unspent outputs over chain and mempool |
| Mwck, Merkle, BlkFile | the websocket tip notifier, Merkle branches, the blk*.dat parser |

## Main results

- `Indexer.Indexer.Update` and `Lifecycle.Run`: the txstore and history rows after every update equal
  those built from scratch for the best chain, and queries between updates answer for that chain. No
  missing-output panic is reachable. Two properties are not unconditional, and the contracts say
  exactly when they hold: an update stops when the node's best block is a strict ancestor of the
  indexed tip, and the history is complete if and only if no new block was in the set of indexed
  hashes loaded when the store was opened.
- `RowMeaning`: which rows of each kind these databases hold, as an if and only if about the blocks.
- The same method records every database step of an update. Consecutive records differ by one step,
  after each of them `Store::open` would succeed, and with queries on the visible rows are exactly
  those of a prefix of the new best chain, while any number of queries run.
- `ChainQuery.Utxo` and `ChainQuery.Stats`: the answers come from a scan over the byte keys of the
  history database, do not depend on the caches, and are exactly the script's coins and totals on
  the chain. `ScriptMeaning.UnspentMeaning`, `StatsMeaning` and `TxCountMeaning` say what these are
  without replaying a history: the outputs that blocks pay to the script and no input spends, and the
  number and the sum of all that were paid and of those that were spent.
- `Mempool.Pool.Update`, `Mempool.CompleteIff`, `Overlay.QueryUtxo`: the mempool index is exact in
  every interleaving, with whatever the node still had of what it listed. `Query::utxo` fails exactly
  when the chain query does, and otherwise is exact if and only if nothing it looks at is deserted,
  that is, spent by a transaction that stays after the spender processed last was removed
  (`Overlay.LostEdge`), and no unconfirmed output it lists is confirmed already.
- `SummaryMeaning.SummaryValue` and `ValuesAddUp`: a summary's value is what its transaction pays to
  the scripts less what it spends of theirs, and all summaries of a script add up to what it has
  unspent.
- `Merge.Drain`, `Summaries.SummaryGroup`, `Paging.FollowPages`, `Codec.RowOrder`: scans, merges,
  summaries and pages over byte keys list what they should, once, in order. A client that follows the
  pages ends with every transaction that can be shown, once and in order, if and only if no
  unconfirmed one is confirmed already, no page ends in a confirmed one that is still stored in the
  mempool, and no whole page of transactions that cannot be shown comes before one that can. The
  first two can fail between a new block and the next update of the mempool, and then a client may
  never end (`Paging.NeverEnds`).
- `Mwck.Follow`: over any run of tip moves, websocket clients hold exactly the chain, and exactly its
  transactions, after every move up to the first that abandons a block which they hold and the hub
  has forgotten, and not after that one; `Mwck.DroppedTip` shows a shallow reorganisation after a
  drop of the tip that is such a move.
- `BlkFile.RecoveredIff`: exactly the complete records of a blk file are recovered if and only if
  every aborted record is directly followed by another or by less than four bytes, whenever no body
  starts like padding.

## Model

| member | source | states |
|---|---|---|
| `Balance.FoldIsLedger` | src/new_index/schema.rs:1332-1376 | Inserting funded and removing spent outputs along a script's history yields the script's share of the consensus ledger. |
| `Balance.UnspentsAreFold` | src/new_index/schema.rs:979-999 | The fold from height 0 over a valid chain is the script's set of unspent outputs. |
| `Balance.LedgerMeaning` | src/new_index/schema.rs:919-977 | An output is in the ledger exactly when some transaction created it and none spends it. |
| `Balance.LedgerWorth` | src/new_index/schema.rs:919-977 | An unspent output carries the block and the value of the transaction that created it. |
| `Statistics.HistorySound` | src/new_index/schema.rs:1037-1102 | On a valid chain every spending entry of a script matches an output funded earlier and not yet spent. |
| `Statistics.Conservation` | src/new_index/schema.rs:1037-1102 | Funded minus spent count is the number of unspent outputs and funded minus spent sum their total value, and neither difference is negative. |
| `Statistics.SaneIff` | src/new_index/schema.rs:159-171 | The sanity test accepts the correct statistics of a script if and only if it has no unspent output, or one that is worth something. |
| `Statistics.BalanceIsUnspentTotal` | src/electrum/server.rs:386-394 | The confirmed balance subtraction never underflows and equals the total value of the unspent outputs. |
| `History.EntriesSorted` | src/new_index/schema.rs:1871-1949 | The entries of a script in chain order are in key order. |
| `History.EntriesSplit` | src/new_index/schema.rs:614-624 | The entries at a height or above are exactly what the longer history adds to that of the blocks below. |
| `History.TxRowsAre` | src/new_index/schema.rs:1541-1635 | The H rows of a transaction are exactly its entries, for every script. |
| `Headers.HeaderList.Empty` | src/util/block.rs:75-81 | An empty list is valid. |
| `Headers.HeaderList.HeaderByBlockhash` | src/util/block.rs:213-221 | Finds a hash if and only if it is on the current chain, at its true height, whatever stale heights remain. |
| `Headers.HeaderList.Order` | src/util/block.rs:121-159 | Succeeds exactly when the headers are linked and attach to the chain, and numbers them from there. |
| `Headers.HeaderList.Apply` | src/util/block.rs:163-211 | Truncates where the headers attach and extends; returns the removed entries, old tip first, and the tip below them; keeps the list valid. |
| `Headers.HeaderList.PushAll` | src/util/block.rs:202-208 | Appends headers and keeps every entry findable at its height. |
| `Headers.ChainedDistinct` | src/util/block.rs:97-107 | A linked list of headers never meets the same hash twice. |
| `Headers.ChainedHeaders` | src/util/block.rs:83-110 | Walks back from the tip; succeeds with the path to null, and fails exactly when there is none. |
| `Daemon.GetAllHeaders` | src/daemon.rs:797-821 | Headers served by height are accepted exactly while the tip is on the node's best chain, and then are those of the tip's own chain. |
| `Daemon.GetNewHeaders` | src/daemon.rs:824-855 | Returns exactly the headers of the best chain above the fork with the indexed one. |
| `Daemon.SyncHeaders` | src/new_index/schema.rs:277-333 | The list ends at the node's best block if and only if that is not a strict ancestor of the old tip; the new and removed headers are those above the fork, and the rollback tip is the fork block. |
| `Daemon.Reattach` | src/util/block.rs:121-211 | Ordering and applying headers above the fork leaves exactly the best chain. |
| `Daemon.ForkShares` | src/daemon.rs:842-851 | A block of one chain is on another if and only if it lies below their fork. |
| `TxStore.KeysUnique` | src/new_index/schema.rs:1396-1446 | On a valid chain a key has one row, in one block. |
| `TxStore.PutIsUnion` | src/new_index/db.rs:229-249 | Writing rows of a chain adds them to the database and replaces none. |
| `TxStore.DeleteIsMinus` | src/new_index/db.rs:251-258 | Deleting the key of a chain's row removes that row only. |
| `TxStore.TxDbStep` | src/new_index/schema.rs:1396-1426 | The rows of one more block are disjoint from those below and complete the database of the longer chain. |
| `TxStore.OutputRows` | src/new_index/schema.rs:1505-1509 | The O rows are exactly the spendable outputs ever created. |
| `TxStore.ConfRows` | src/new_index/schema.rs:1266-1280 | A transaction has a C row for a block exactly when the block holds it. |
| `HistStore.HistStep` | src/new_index/schema.rs:1511-1538 | The history rows of one more block are disjoint from those below and complete the database of the longer chain. |
| `HistStore.LookedUp` | src/new_index/schema.rs:1541-1635 | Rows computed from outputs looked up in the txstore of the whole chain are those of a rebuild. |
| `HistStore.PrevoutFound` | src/new_index/schema.rs:1461-1482 | Every input of a chain finds the output it spends in the txstore of the chain. |
| `HistStore.RowsAreEntries` | src/new_index/schema.rs:1541-1635 | The H rows of a chain's database are exactly the entries of the scripts. |
| `Visibility.OneConfirmation` | src/new_index/schema.rs:1266-1280 | Rows of one valid chain confirm a transaction by at most one block of the header list. |
| `Visibility.ChainFits` | src/new_index/schema.rs:1933-1949 | Every history row of a valid chain fits the integer types of its key. |
| `Visibility.RollbackShows` | src/new_index/schema.rs:987-996 | While abandoned rows are being deleted, the scan filtered by confirming block and height shows exactly the shared blocks. |
| `Visibility.ForwardShows` | src/new_index/schema.rs:987-996 | While new blocks are added and then indexed in order, it shows exactly the blocks indexed so far. |
| `RowMeaning.BlockTxidsRows` | src/new_index/schema.rs:1410-1416 | The X row of a hash holds the txids of the block with that hash, all of them and in order, and no other hash has one. |
| `RowMeaning.BlockMetaRows` | src/new_index/schema.rs:1417 | The M row of a hash holds the number of the block's transactions. |
| `RowMeaning.HeaderRows` | src/new_index/schema.rs:1420-1421 | A B row holds the header of a block of the chain under its hash, and exactly these hashes are marked as added. |
| `RowMeaning.TransactionRows` | src/new_index/schema.rs:1436-1438 | A T row holds a transaction of the chain under its own txid. |
| `RowMeaning.ConfirmationRows` | src/new_index/schema.rs:1434 | A C row joins a txid to a hash exactly when the block with that hash holds the transaction. |
| `RowMeaning.SpendableRows` | src/new_index/schema.rs:1440-1445 | An O row holds exactly a spendable output of the chain, under its outpoint. |
| `RowMeaning.FundingRows` | src/new_index/schema.rs:1561-1579 | A funding row stands in the history exactly for an output at that height, position and index, with its script and value, that is spendable or unspendable ones are indexed too. |
| `RowMeaning.SpendingRows` | src/new_index/schema.rs:1587-1613 | A spending row stands there exactly for an input at that height, position and index other than a coinbase's, with the script and value of the output that it spends. |
| `RowMeaning.EdgeRows` | src/new_index/schema.rs:1615-1621 | An S row joins an outpoint to exactly the transaction and the input that spend it. |
| `RowMeaning.DoneRows` | src/new_index/schema.rs:1533 | The hashes marked as indexed are those of the chain's blocks. |
| `ScriptMeaning.UnspentMeaning` | src/new_index/schema.rs:919-977 | An output is among a script's unspent ones exactly when a transaction of the chain pays it to the script, it is spendable or unspendable ones are indexed too, and no input spends it; it carries that transaction's block and the output's value. |
| `ScriptMeaning.PaidIs` | src/new_index/schema.rs:1561-1579 | The outputs ever paid to a script exist as one table, collected transaction by transaction. |
| `ScriptMeaning.StatsMeaning` | src/new_index/schema.rs:1037-1102 | The funded count and sum are the number and the total of all outputs ever paid to the script, the spent count and sum those of the ones that some input spends. |
| `ScriptMeaning.TxCountMeaning` | src/new_index/schema.rs:1055-1066 | The transaction count is the number of transactions that pay to the script or spend an output of it. |
| `Store.Store.constructor` | src/new_index/schema.rs:74-87 | A new store is empty. |
| `ChainQuery.ApplyUtxoDelta` | src/new_index/schema.rs:1332-1376 | Returns the fold of the history and its last block; fails exactly when a limit is exceeded at some point on the way, with the error of the limit exceeded first. |
| `ChainQuery.ApplyStatsDelta` | src/new_index/schema.rs:1037-1102 | Adds the counts, sums and the number of distinct txids, although the set of seen txids is cleared at each block change. |
| `ChainQuery.CountEntries` | src/new_index/schema.rs:1055-1102 | The loop with the per-block set computes the running tallies and the last block. |
| `ChainQuery.TxConfirmingBlock` | src/new_index/schema.rs:1266-1280 | Returns a block of the header list that confirms the transaction, or none if there is none. |
| `ChainQuery.ConfirmedHistory` | src/new_index/schema.rs:979-999 | Scanning the sorted byte keys from a height on, decoding and filtering gives exactly the history of the shown chain from there on. |
| `ChainQuery.StampIsCurrent` | src/new_index/schema.rs:942-950 | The block of the last entry of a history determines the whole history up to there. |
| `ChainQuery.ReadBack` | src/new_index/schema.rs:2158-2181 | A cached map read back with the current headers is the map that was cached. |
| `ChainQuery.ResumeUtxos` | src/new_index/schema.rs:919-977 | Replaying later history on cached outputs gives the outputs of the whole history. |
| `ChainQuery.ResumeStats` | src/new_index/schema.rs:1001-1035 | Adding later history to cached statistics gives the statistics of the whole history. |
| `ChainQuery.NewUtxoRow` | src/new_index/schema.rs:942-950 | The row that a query writes is right for the block it is stamped with. |
| `ChainQuery.NewStatsRow` | src/new_index/schema.rs:1024-1032 | The statistics row that a query writes is right for its block. |
| `ChainQuery.LaterGrouped` | src/new_index/schema.rs:1059-1066 | In a chain's history a transaction's entries lie within one block, and blocks come in order. |
| `ChainQuery.UtxoFromCache` | src/new_index/schema.rs:922-934 | A cache row is used only if its block is on the chain, and then resumes the query right above it. |
| `ChainQuery.StatsFromCache` | src/new_index/schema.rs:1004-1016 | The same for statistics; rejected or orphaned rows lead to a computation from the beginning. |
| `ChainQuery.SaveUtxos` | src/new_index/schema.rs:942-950 | Writing a right row keeps all cache rows right. |
| `ChainQuery.SaveStats` | src/new_index/schema.rs:1024-1032 | Writing a right statistics row keeps all cache rows right. |
| `ChainQuery.Utxo` | src/new_index/schema.rs:919-977 | With any cache, an answer is exactly the script's unspent outputs on the shown chain; it fails exactly when a limit is exceeded from the resumed height on, with the error of the limit exceeded first; a cache row is used exactly when its block is on the chain and rewritten exactly when the code says so; all rows stay right. |
| `ChainQuery.Stats` | src/new_index/schema.rs:1001-1035 | With no, a valid, a rejected or an orphaned cache row, the answer is the statistics of the shown history; which row is used and written is exact, and all rows stay right. |
| `ChainQuery.RunQueries` | src/new_index/schema.rs:919-1035 | Any number of queries keep all cache rows right and write only rows stamped with shown blocks. |
| `ChainQuery.SaneRejectsWorthless` | src/new_index/schema.rs:159-171 | A valid chain whose correct statistics the sanity test rejects: the script's only unspent output is worth nothing. |
| `Rollover.HistBack` | src/new_index/schema.rs:440-474 | Deleting the last block's history rows leaves those of the blocks below and touches no shared row. |
| `Rollover.TxBack` | src/new_index/schema.rs:398-437 | The same for txstore rows. |
| `Rollover.TipRecoverable` | src/new_index/schema.rs:385-387 | While the rows of a prefix of a chain are kept, the header list of the prefix's tip can be rebuilt. |
| `Batches.IndexTransaction` | src/new_index/schema.rs:1541-1635 | Succeeds exactly when every input's output is given, with exactly the transaction's rows. |
| `Batches.IndexBlock` | src/new_index/schema.rs:1511-1538 | The same for a block, with its done row. |
| `Batches.LookupTxos` | src/new_index/schema.rs:1461-1482 | Succeeds exactly when every outpoint has an O row, and returns those rows. |
| `Batches.IndexRows` | src/new_index/schema.rs:440-474 | On the txstore of a chain no lookup fails, and a batch of its blocks gets the rows of a rebuild. |
| `Batches.AddRowsAre` | src/new_index/schema.rs:1396-1426 | The rows added for a batch are those of its heights. |
| `Batches.Fetched` | src/daemon.rs:652 | The node returns the blocks of its chains by hash. |
| `Batches.NextBatch` | src/new_index/fetch.rs:117-197 | A batch takes the next 100 headers in order from the node, or any of them from the blk files; nothing is lost. |
| `Batches.FilterOut` | src/new_index/schema.rs:249-265 | Keeps exactly the headers whose hash is not in the set, in order. |
| `Batches.RemovedBatch` | src/new_index/schema.rs:300-305 | A chunk of the removed headers fetches the abandoned blocks, highest first. |
| `Indexer.Indexer.StepDone` | src/new_index/schema.rs:322-396 | Records a database step that links to the last one, and lets queries run before the next. |
| `Indexer.Indexer.DeleteHistory` | src/new_index/db.rs:251-258 | Deletes history rows one step at a time; every state on the way shows the shared blocks and can be opened. |
| `Indexer.Indexer.DeleteTxRows` | src/new_index/db.rs:251-258 | The same for txstore rows. |
| `Indexer.Indexer.IndexDelete` | src/new_index/schema.rs:440-474 | Undoes the history of a batch exactly and collects exactly the scripts it names. |
| `Indexer.Indexer.AddDelete` | src/new_index/schema.rs:398-437 | Undoes the txstore rows of a batch exactly and forgets its hashes. |
| `Indexer.AllDue` | src/new_index/schema.rs:306-317 | Every cache row stamped with an abandoned block belongs to a collected script. |
| `Indexer.Indexer.DropCaches` | src/new_index/schema.rs:309-317 | Drops the cache rows of the collected scripts step by step; none of an abandoned block is left, whatever queries write meanwhile. |
| `Indexer.Indexer.DeleteHistories` | src/new_index/schema.rs:299-301 | The first pass leaves the history of the shared blocks. |
| `Indexer.Indexer.DeleteTxs` | src/new_index/schema.rs:302-304 | The second pass leaves the txstore of the shared blocks. |
| `Indexer.Indexer.Reorg` | src/new_index/schema.rs:288-320 | Afterwards databases, hash set and caches are those of the shared blocks. |
| `Indexer.Indexer.AddBatch` | src/new_index/schema.rs:398-437 | Writes a batch in one step and remembers its hashes. |
| `Indexer.Indexer.AddAll` | src/new_index/schema.rs:357-364 | Adds every new block, in whatever batches they come. |
| `Indexer.Indexer.IndexBatch` | src/new_index/schema.rs:440-474 | Indexes a batch in one step; neither the missing-from-store nor the missing-output panic can happen. |
| `Indexer.Indexer.IndexAll` | src/new_index/schema.rs:367-374 | Indexes the given blocks; with queries on, each step shows a longer prefix of the best chain. |
| `Indexer.Indexer.RollBack` | src/new_index/schema.rs:335-352 | Moves the tip row back first, then undoes the abandoned blocks. |
| `Indexer.Indexer.RollForward` | src/new_index/schema.rs:357-391 | Adds, then indexes, then advances the tip row: the txstore is that of the best chain, the history that of all blocks not skipped. |
| `Indexer.Indexer.Update` | src/new_index/schema.rs:322-396 | Fails, leaving databases, caches, hash sets and header list as they were, exactly when the best block is a strict ancestor of the tip; otherwise everything equals a rebuild for the best chain if and only if no new block was in the loaded set; the recorded steps are linked from the old state to the new one, each can be opened again and shows a prefix of the best chain. |
| `Indexer.CompleteIff` | src/new_index/schema.rs:258-265 | The history of an update is complete if and only if no new block was in the loaded set of indexed hashes. |
| `Lifecycle.LoadBlockheaders` | src/new_index/schema.rs:1385-1394 | The header rows as a map. |
| `Lifecycle.PathIsChain` | src/util/block.rs:97-107 | A path through header rows of the node is the node's own chain. |
| `Lifecycle.RebuildHeaders` | src/util/block.rs:83-119 | Rebuilds the node's chain to the tip; fails exactly when the tip or an ancestor has no header row. |
| `Lifecycle.Open` | src/new_index/schema.rs:56-88 | Succeeds exactly when the header rows of the persisted tip exist, with the hash sets of the rows on disk. |
| `Lifecycle.AfterCrash` | src/new_index/schema.rs:67-78 | The store opens on what any recorded step left on disk, with the header list of the persisted tip. |
| `Lifecycle.LoadedAre` | src/new_index/schema.rs:1378-1383 | The hash sets loaded from the databases of a chain are the hashes of its blocks. |
| `Lifecycle.Restart` | src/new_index/schema.rs:56-88 | Restarting on the databases of a consistent store gives a consistent store on the same chain. |
| `Lifecycle.StillConsistent` | src/new_index/schema.rs:322-396 | Consistency does not depend on blocks the node learns later. |
| `Lifecycle.ConsistentReady` | src/new_index/schema.rs:919-1035 | A store that equals a rebuild shows its whole chain to queries, with right caches. |
| `Lifecycle.Run` | src/new_index/schema.rs:288-474 | After any run of extensions, reorganisations, restarts and queries, everything equals a rebuild for the last best chain, and every query was answered for the chain current then. |
| `Lifecycle.Fresh` | src/new_index/schema.rs:76-78 | A new store is consistent with the empty chain. |
| `Lapses.NodeRewound` | src/new_index/schema.rs:331 | A node whose best block is a strict ancestor of the tip. |
| `Lapses.BlockCameBack` | src/new_index/schema.rs:258-265 | A block in the loaded set that is abandoned and comes back leaves the history short of a rebuild. |
| `Codec.RowOrder` | src/new_index/schema.rs:1933-1989 | Encoded keys sort bytewise as script, height, position, Spending before Funding, and then the rest. |
| `Codec.RoundTrip` | src/new_index/schema.rs:1978-1989 | A key, with any bytes after it, decodes to the row it encodes. |
| `Codec.KeyLayout` | src/new_index/schema.rs:1931-1958 | A key is the letter H, the script in 32 bytes, the height in 4, the position in 2, the kind in 4, and then what is spent or funded, all big-endian. |
| `Codec.EncOrder` | src/util/bincode_util.rs:3-15 | Fixed-width big-endian records sort bytewise as their fields. |
| `Codec.FilterIs` | src/new_index/schema.rs:1960-1962 | A key starts with a script's filter exactly when it is the script's. |
| `Codec.FromHeight` | src/new_index/schema.rs:1968-1971 | A key is below the forward bound exactly when its height is. |
| `Codec.UpToHeight` | src/new_index/schema.rs:1973-1976 | A key is above the reverse bound exactly when its height is, or it stands at the bound's height and position 65535. |
| `Codec.ReverseCompleteIff` | src/new_index/schema.rs:1973-1976 | The reverse bound covers all rows at the height or below if and only if none stands at position 65535 of it. |
| `Codec.LastPositionMissed` | src/new_index/schema.rs:1973-1976 | A row at position 65535 that the reverse bound leaves out. |
| `Codec.UpToEnd` | src/new_index/schema.rs:1964-1966 | The end bound covers all rows but those at the largest height. |
| `Scan.ScanIterator.constructor` | src/new_index/db.rs:187-197 | The iterator will return exactly the keys with the prefix that are not below the start, in order. |
| `Scan.ScanIterator.Next` | src/new_index/db.rs:30-44 | Returns the next of them, or none when none is left. |
| `Scan.ReverseScanIterator.constructor` | src/new_index/db.rs:199-208 | The iterator will return exactly the keys with the prefix that are not above the maximum, highest first. |
| `Scan.ReverseScanIterator.Next` | src/new_index/db.rs:55-75 | Returns the next of them, or none when none is left. |
| `Scan.ScanFrom` | src/new_index/schema.rs:614-624 | A forward scan returns exactly the script's rows at the height or above, in row order. |
| `Scan.DiskKeys` | src/new_index/db.rs:187-197 | The keys of a database of rows, among any other keys, in bytewise order. |
| `Scan.ScanBack` | src/new_index/schema.rs:625-637 | A reverse scan returns exactly the script's rows in range, newest first. |
| `Merge.BestIndex` | src/new_index/db.rs:112-126 | Picks a row with the greatest suffix, of equals the last. |
| `Merge.GroupIterator.constructor` | src/new_index/db.rs:85-101 | Takes the first row of every scan in hand and loses none. |
| `Merge.GroupIterator.Next` | src/new_index/db.rs:107-135 | Returns a greatest pending row and removes exactly that one; none exactly when nothing is pending. |
| `Merge.Drain` | src/new_index/db.rs:84-136 | The merge emits every row of every scan, as often as listed, in descending order of the key suffix. |
| `Merge.SuffixOrder` | src/new_index/schema.rs:638-655 | The suffix after byte 33 sorts as the row without its script. |
| `Merge.ScanGroup` | src/new_index/schema.rs:638-655 | The group scan returns exactly the listed scripts' rows in range, newest first. |
| `Summaries.AfterCursor` | src/new_index/schema.rs:665-678 | The chained filters keep exactly the first occurrences of rows after the last seen transaction's. |
| `Summaries.Collate` | src/new_index/schema.rs:679-740 | The table holds the first transactions after the cursor up to the limit, each with its complete total in saturating i64 arithmetic; those left out are older. |
| `Summaries.Full` | src/new_index/schema.rs:685-687 | When the loop breaks, no listed transaction has a row left. |
| `Summaries.RunningExact` | src/new_index/schema.rs:688-714 | The saturating total of a transaction's rows is an i64, and is exact while the amounts moved together fit one. |
| `Summaries.SortSummaries` | src/new_index/schema.rs:741-753 | Lists the table by height and position descending, then value. |
| `Summaries.CollateSummaries` | src/new_index/schema.rs:657-754 | The answer lists, in order and each once, the first `limit` confirmed transactions below the cursor, with what all their distinct rows fund less what they spend, in saturating i64 arithmetic and exactly so whenever the amounts fit; whatever is left out is older. |
| `Summaries.ChainProper` | src/new_index/schema.rs:1541-1635 | In a chain's history a transaction has one place and an input or output one row. |
| `Summaries.SummaryGroup` | src/new_index/schema.rs:783-797 | The same from the byte keys of a chain's history database, for the rows of the listed scripts in range, whatever scripts are listed twice; with the chain's confirming blocks every row counts, and each summary names the block, time and position of its transaction. |
| `SummaryMeaning.SummaryValue` | src/new_index/schema.rs:679-740 | A summary's value is what the outputs of its transaction pay to the listed scripts, less what the outputs that it spends had paid to them, whenever these amounts together fit an i64. |
| `SummaryMeaning.ValuesAddUp` | src/new_index/schema.rs:679-740 | When every transaction of a script is listed and none moves more than an i64 holds, the values add up to the total of its unspent outputs. |
| `SummaryMeaning.AllListed` | src/new_index/schema.rs:685-687 | With fewer summaries than the limit and no cursor, every transaction is listed. |
| `SummaryMeaning.NewestFirst` | src/new_index/schema.rs:741-753 | The summaries come by block, and within a block by position, the newest first. |
| `Cursor.Unique` | src/new_index/schema.rs:831-833 | Each txid once, and no other. |
| `Cursor.UniqueOrder` | src/new_index/schema.rs:831-833 | They come in the order of their first occurrences. |
| `Cursor.AfterAt` | src/new_index/schema.rs:835-842 | After the k-th of distinct txids come exactly those that follow it. |
| `Paging.SameRest` | src/rest.rs:1502-1532 | Starting the scan at the cursor's height leaves the same rest as scanning from the top. |
| `Paging.SortedBack` | src/rest.rs:1537-1545 | Sorting any permutation of a newest-first listing gives the listing back. |
| `Paging.ChainHistory` | src/new_index/schema.rs:816-847 | The confirmed part of a page: the next transactions after the cursor, newest first, whatever order the lookups finish in. |
| `Paging.ChainPage` | src/rest.rs:1522-1551 | The same, from the cursor's location. |
| `Paging.PageTxs` | src/rest.rs:1488-1551 | For every cursor: none, or one stored in the mempool, is followed by the rest of the unconfirmed and then all confirmed transactions; another confirmed one by the rest of the confirmed; any other is refused. |
| `Paging.Page` | src/rest.rs:674-694 | The page shows those of them whose JSON can be made, in order. |
| `Paging.GoesOn` | src/rest.rs:631-656 | After a listed transaction, the listing goes on from there unless it is a confirmed one still stored in the mempool. |
| `Paging.GoesBack` | src/rest.rs:631-656 | After such a one, it starts again from an earlier place. |
| `Paging.VisitIff` | src/rest.rs:1488-1551 | A client that follows the cursor ends with every transaction that can be shown, once and in order, if and only if no unconfirmed one of them is confirmed already, no page ends in a confirmed one still stored in the mempool, and no whole page that cannot be shown comes before one that can; it needs at most one page more than there are transactions. |
| `Paging.FollowPages` | src/rest.rs:1488-1551 | The same from the databases and the mempool; while no page ends in a confirmed transaction still stored, the client has a prefix of what can be shown. |
| `Paging.SeparateIsStraight` | src/rest.rs:631-656 | While no stored transaction is confirmed, the first two conditions hold. |
| `Paging.OrdinaryVisit` | src/rest.rs:1488-1551 | While moreover all can be shown, the client gets all unconfirmed and then all confirmed transactions. |
| `Paging.SamePageAgain` | src/rest.rs:651-653 | With the newest confirmed transaction still stored in the mempool and one transaction to a page, a client gets the same page forever. |
| `Paging.NeverEnds` | src/rest.rs:1488-1551 | A chain and a mempool where that happens. |
| `Mempool.AllPairs` | src/new_index/mempool.rs:540-580 | The entries pushed for a transaction are exactly its history entries, each once. |
| `Mempool.PushAll` | src/new_index/mempool.rs:582-585 | Pushing entries adds exactly those to the lists. |
| `Mempool.RetainExact` | src/new_index/mempool.rs:681-685 | Retaining drops exactly the removed transactions' entries, and no list stays empty. |
| `Mempool.LoggedProcessed` | src/new_index/mempool.rs:586-588 | Processing a transaction makes it the holder of the edges of all outpoints it spends, whoever spent them before. |
| `Mempool.LoggedRemoved` | src/new_index/mempool.rs:694-695 | A removal takes away the edges that the removed transactions hold, and no other transaction takes them over. |
| `Mempool.CompleteIff` | src/new_index/mempool.rs:586-695 | After any run of additions and removals every spend has its edge if and only if no outpoint is spent by a transaction that stays after the spender processed last was removed. |
| `Mempool.ConflictFreeStay` | src/new_index/mempool.rs:694-695 | Among transactions that do not conflict none holds the edge of another's spend. |
| `Mempool.Pool.constructor` | src/new_index/mempool.rs:63-93 | An empty mempool, with the invariant. |
| `Mempool.Pool.StoreTxs` | src/new_index/mempool.rs:480-490 | Stores the transactions and lists exactly the new ones, once each. |
| `Mempool.Pool.LookupPrevouts` | src/new_index/mempool.rs:618-662 | Finds exactly the wanted outputs that are confirmed or stored; its panic cannot fire for stored transactions. |
| `Mempool.ExtractPrevouts` | src/util/transaction.rs:86-106 | Succeeds exactly when every input's output was found. |
| `Mempool.FeeOf` | src/util/fees.rs:29-40 | The fee is 0 for a coinbase, and otherwise what the inputs are worth less what the outputs pay if and only if that is an amount a u64 holds. |
| `Mempool.PaidOutIs` | src/util/fees.rs:38 | What a transaction pays is the sum of its outputs' values, each once. |
| `Mempool.PaidInIs` | src/util/fees.rs:34-37 | What a transaction's inputs are worth is the sum of the values of the outputs that they spend, each once. |
| `Mempool.AddEdges` | src/new_index/mempool.rs:586-588 | The transaction holds the edges of exactly the outpoints it spends; the others stay; every edge names a processed transaction and the input that spends the outpoint. |
| `Mempool.Pool.Process` | src/new_index/mempool.rs:517-601 | Processing a transaction keeps the whole invariant. |
| `Mempool.Pool.ProcessAll` | src/new_index/mempool.rs:507-603 | Exactly the transactions whose inputs were all found are processed. |
| `Mempool.Pool.Add` | src/new_index/mempool.rs:469-604 | Keeps the invariant; the new transactions with all inputs found are processed, the others only stored; counts the processed ones. |
| `Mempool.Pool.Remove` | src/new_index/mempool.rs:664-696 | Keeps the invariant and removes exactly the given transactions; panics exactly when one is not stored; keeps the edges complete exactly when no removed transaction holds the edge of a spend that stays. |
| `Mempool.Pool.AddByTxid` | src/new_index/mempool.rs:452-463 | Fails exactly when a fetched new transaction could not be processed. |
| `Mempool.GetTransactions` | src/daemon.rs:499-543 | Returns exactly the requested transactions that the node still has; fails exactly when more than a quarter, rounded, are gone or the node does not answer. |
| `Mempool.Pool.Update` | src/new_index/mempool.rs:394-450 | With any additions between its phases, an update cannot panic and keeps the invariant; it leaves exactly the listed transactions that were stored, the new ones the node still had, and those added meanwhile; of those that stayed the same are processed as before, of the new ones those whose inputs are all found; it fails exactly when the node does not list them, or does not give enough of the new ones; without conflicts every spend keeps its edge. |
| `Mempool.Pool.EntryStored` | src/new_index/mempool.rs:176 | Every history entry belongs to a stored, processed transaction and to its script. |
| `Mempool.Pool.StoredFee` | src/new_index/mempool.rs:520-538 | The fee stored for a processed transaction is 0 for a coinbase, and otherwise what its inputs are worth less what its outputs pay if and only if that is an amount a u64 holds. |
| `Mempool.Pool.FundingEntries` | src/new_index/mempool.rs:562-585 | A script's funding entries are exactly the outputs of processed transactions that pay to it and are spendable, or unspendable ones are indexed too; each once. |
| `Mempool.Pool.SpendingEntries` | src/new_index/mempool.rs:541-585 | Its spending entries are exactly the inputs of processed transactions that spend an output paying to it; each once. |
| `Mempool.Pool.History` | src/new_index/mempool.rs:156-179 | Returns the script's transactions after the cursor; its panic cannot fire. |
| `Overlay.MempoolUtxo` | src/new_index/mempool.rs:240-278 | Lists exactly the funding entries without an edge, once each. |
| `Overlay.WithMempool` | src/new_index/query.rs:125-128 | Returns each confirmed output and each unconfirmed funding without an edge once, and nothing else. |
| `Overlay.ChainCoin` | src/new_index/query.rs:119-124 | The chain query lists an output exactly when a chain transaction pays it to the script and none spends it. |
| `Overlay.ExactIff` | src/new_index/query.rs:119-129 | The answer is exactly the script's outputs that neither chain nor mempool spends if and only if the edges cover the mempool's spends of the outputs it looks at and no unconfirmed output it lists is confirmed already. |
| `Overlay.CoverIff` | src/new_index/query.rs:119-129 | The edges cover what the query looks at if and only if none of it is deserted in the run so far. |
| `Overlay.QueryUtxo` | src/new_index/query.rs:119-129 | Fails exactly when the chain query does, with its error; otherwise lists, each once, exactly the script's outputs that neither the shown chain nor the mempool spends, if and only if nothing it looks at is deserted or confirmed already. |
| `Overlay.CompleteIsExact` | src/new_index/query.rs:119-129 | It is exact for every script while every mempool spend has its edge and no mempool transaction is on the chain. |
| `Overlay.LostEdge` | src/new_index/mempool.rs:694-695 | Two transactions spend one confirmed output and the edge holder is removed: the query returns the output although the other one spends it. |
| `Mwck.Retract` | src/mwck.rs:230-249 | Takes out exactly the remembered blocks that left the chain, lowest first, and finds their successors. |
| `Mwck.Advance` | src/mwck.rs:251-281 | Confirms exactly the successors and the new heights not remembered, each once. |
| `Mwck.Hub.NotifyNewTip` | src/mwck.rs:225-290 | A block is removed only after it was confirmed, once per confirmation; the messages hold the transactions of the removed and then of the confirmed blocks, and keep the clients' transactions those of the confirmed blocks; afterwards the memory agrees with the chain and holds only the last 17 heights. |
| `Mwck.SyncedStep` | src/mwck.rs:225-290 | The clients still hold exactly the chain after the tip moved if and only if every abandoned block they held was remembered. |
| `Mwck.Follow` | src/mwck.rs:225-290 | Over any run whose earlier moves were safe, the clients hold exactly the chain from where they started, or the tip has dropped to since, if and only if the last move abandons no block that they hold and the hub has forgotten; and then exactly its transactions. |
| `Mwck.SteadyIsSafe` | src/mwck.rs:288-289 | While the tip never drops, every reorganisation of up to 17 blocks is safe. |
| `Mwck.DroppedTip` | src/mwck.rs:288-289 | A drop of the tip to a shorter branch followed by a reorganisation of 10 blocks leaves a client with an abandoned block. |
| `Merkle.CreateMerkleBranchAndRoot` | src/util/electrum_merkle.rs:95-118 | Folding the leaf up the branch by the index bits gives the root, which is that of the last-duplicated tree; the branch length is the ceiling of the logarithm. |
| `Merkle.OneRoot` | src/util/electrum_merkle.rs:95-118 | All indices give one root and one branch length. |
| `Merkle.ClimbUnique` | src/util/electrum_merkle.rs:90-93 | Without collisions only the listed leaf reaches the root, by one branch. |
| `Merkle.GetTxMerkleProof` | src/util/electrum_merkle.rs:6-25 | A proof is given exactly for the block's transactions, at their first position, and leads to the block's root. |
| `BlkFile.ParseBlocks` | src/new_index/fetch.rs:256-291 | The scanning loop computes what the file holds from its start. |
| `BlkFile.RoundTrip` | src/new_index/fetch.rs:256-291 | From padding, aborted records directly followed by others or by less than four bytes, and complete records, exactly the bodies and sizes are recovered, in order. |
| `BlkFile.RecoveredIff` | src/new_index/fetch.rs:256-291 | For every file whose bodies do not start like padding, that is so if and only if every aborted record is followed in one of these ways. |
| `BlkFile.RightByAccident` | src/new_index/fetch.rs:276-290 | A file with such a body that is recovered although its aborted record is not skipped. |
| `BlkFile.ParseMistaken` | src/new_index/fetch.rs:276-290 | After an aborted record followed by anything else, the next bytes are taken for its body, or the slice ends beyond the file. |
| `BlkFile.OnlyRecords` | src/new_index/fetch.rs:256-291 | In any file, every block returned follows the magic and has the size written before it. |
| `BlkFile.NoSize` | src/new_index/fetch.rs:272 | Wherever the scan meets the magic with less than four bytes after it, it fails for want of a size. |
| `BlkFile.CutFile` | src/new_index/fetch.rs:256-291 | A file that ends in that way is refused as a whole, whatever records come before. |
| `BlkFile.AbortedThenPadding` | src/new_index/fetch.rs:276-290 | In any file, an aborted record before a tail of zeros is skipped if and only if there are fewer than four of them; otherwise zeros are returned as a block or the slice ends beyond the file. |

## Where the code and its comments differ

- The comment at src/new_index/schema.rs:1974 promises all transactions at the height; the bound
  leaves out position 65535, which no block within the modelled size reaches.
- The sanity test of cached statistics (src/new_index/schema.rs:166-171) also rejects correct rows,
  exactly those of scripts that have unspent outputs, all of them worth nothing. That costs a rescan
  and never changes an answer.
- The assertion at src/new_index/schema.rs:331 fails while the write lock of the header list is held.
  The panic leaves the state as it was but poisons the lock, so that later readers panic as well.
- A comment at src/rest.rs:651 says that a mempool cursor never exists in the chain's history. It can,
  between a new block and the next update of the mempool, and then the page starts again from the
  newest confirmed transaction.
- An aborted record is skipped only before another record or the end of the file
  (src/new_index/fetch.rs:271-286); before padding it is taken for a complete one.
- A reorganisation of 17 blocks is still followed by the websocket notifier, one more than the 16
  that src/mwck.rs:288 suggests, as long as the tip has not dropped before.

## Left out

- Indexer.Indexer.Update: queries between steps are covered for blocks fetched from the node with no new block in the loaded set; blk files are read before the first query, and then only the openable states are claimed.
- Lifecycle.Run: a crash in the middle of an update is covered up to the reopened store, not the update that follows it.
- ChainQuery.Utxo: the limit on history items is computed modulo 2^64, as in a build without overflow checks; the sums in statistics are unbounded.
- SummaryMeaning.SummaryValue: the amounts of a transaction together fit an i64, which the supply of coins guarantees; beyond that the code saturates row by row, as `Summaries.Collate` states.
- Paging.Page: which transactions cannot be shown is given; the pages for several addresses at once are not modelled.
- Mempool.Pool.Update: the queue of recent transactions, fee rates, backlog statistics and the mempool's own `stats` would only add easy members.
- Mwck.Hub.NotifyNewTip: which transactions concern which client, the JSON, and the cache of mempool bodies are not modelled.
- BlkFile.RoundTrip: bodies have at least four bytes, as every block has; decoding a body is not modelled.
- BlkFile.RecoveredIff: needs that no body starts with zeros followed by the start of the magic; with such a body the parser can return the right blocks by accident, as `BlkFile.RightByAccident` shows.
- Mempool.GetTransactions: a node answers every request of a batch; retries after a lost connection are part of whether it answers.
- Paging.FollowPages: the databases and the mempool do not change while the client follows the pages.
- A query is one atomic step: an iterator that spans a change of the databases is left out.
- Write-ahead log, flushing, compaction and the V, F and `a` rows of the databases are left out.
- Light mode, the Liquid build and address search are left out.
- Block sizes and weights in the M rows, raw transactions as bytes, and the JSON and Electrum formats are left out.
- HTTP, TLS, authentication, RPC transport, configuration, metrics, the import queue and sigop counting are left out.
