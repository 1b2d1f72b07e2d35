# ZiftrCOIN core: a verified model

This project models the parts of ZiftrCOIN (a descendant of Bitcoin 0.9) where correctness is hardest to see, and
proves what they are for. Everything is Dafny 4.11; `dafny verify dfyconfig.toml` checks it.

| files | what they model |
|---|---|
| `Coins`, `Utxo`, `UtxoUndo`, `Supply`, `Reorg` | the set of unspent outputs: connecting and disconnecting blocks, conservation of value, whole runs of reorganisations and flushes |
| `BlockRules`, `Redo` | the acceptance rules stated over the history of outputs instead of the view, and connecting again what was disconnected |
| `StoredUndo`, `DiskRuns` | the same with records and undo data going through the disk |
| `CacheStack` | write-back caches of unspent outputs stacked over a database |
| `Basics`, `Numerals`, `Amounts`, `CoinCodec`, `CoinFormats` | the stored form of unspent-output records and undo entries, and its documented layout and examples |
| `CheckQueue` | the master/worker queue for script checks, as a protocol over arbitrary interleavings |
| `BlockTree`, `ChainTip`, `ChainSelect`, `ChainCoins`, `TieBreaker` | the block tree, the active chain with its dynamic size limits, the choice of the best chain, its coins, and the comparator of candidates |
| `Merkle`, `PartialMerkle`, `PrunedTrees` | merkle trees, branches, the partial trees of BIP 37 and the messages they accept |
| `AddrMan`, `AddrManInv`, `AddrManOps`, `AddrManDisk`, `AddrManLoad`, `AddrManCheck`, `AddrManRuns`, `AddrManLaws` | the address manager's redundant indexes, its operations, saving, loading from any file, its consistency check, whole runs, and what its stamps and counters mean |
| `Base58` | Base58 and its checksummed form |
| `Compact`, `Retarget` | compact targets and the difficulty rule |
| `KeccakF`, `Stream`, `Keccak`, `Fips202` | Keccak with complemented lanes, streaming and padding, and the standard it computes, bit by bit |
| `Blake` | BLAKE-512 streaming, message counter and padding |

## How to read it

Code that updates objects is modelled by classes whose methods are proved to compute functions of the old state; the
theorems are about those functions and about every sequence of calls. Hashes, script evaluation, the subsidy curve, the
compression function of BLAKE and the script codec are parameters: functions about which nothing is assumed except where a
theorem says so (collision freedom in `Merkle` and `PartialMerkle`, a four-byte checksum in `Base58`, a faithful script
codec in `CoinCodec`). Random draws, clock readings and time stamps are arguments. Integers are unbounded except where
the width matters: lanes are 64-bit vectors, and the BLAKE counter is written out modulo 2^64.

Six properties one might expect turn out to hold only under a condition, and the condition is proved exact:

* Disconnecting a block does not always restore the view: undo data marks "not the last output" by height 0, so a record
  created at height 0 that loses its last output cannot be restored (`UtxoUndo.UndoInvertsConnect`, with the example
  `UtxoUndo.HeightZeroRecordIsLost`, an accepted block, and `Reorg.FlushedRecordComesBackWrong` on the flushed view).
* Flushing a cache does not always keep the best block of the level below (`CacheStack.FlushBest`, with the example
  `CacheStack.FlushForgetsBest`).
* A stored undo entry keeps its version only together with a height, and of a negative version only the last seven bits
  (`CoinCodec.UndoRoundTrip`, with the entries of `CoinCodec.HeightZeroUndoLosesVersion` and
  `CoinCodec.NegativeVersionComesBackWrong`). So undo data from disk restores the view exactly when, besides, no record
  with a negative version was emptied (`StoredUndo.StoredUndoInvertsConnect`, with the example
  `StoredUndo.NegativeVersionIsLost`). That this inconsistency is harmless, as a comment at src/main.cpp:1837-1839 has it,
  is proved in `DiskRuns`: it changes no verdict and no value, over any run.
* The file format of the address manager is meant to survive a change of its parameters, but new buckets rebuilt for
  another number of buckets may exceed 64 entries (`AddrManLoad.LoadsValidIff` and `AddrManLoad.RebuiltIff`, with the
  example `AddrManLoad.RebuildOverflows`).
* The comparator of candidate tips is not always an order: a sibling that overtakes an older one by its mature coins can
  close a circle with a block of another parent that arrived between them (`TieBreaker.TransitiveIff`, with the example
  `TieBreaker.CircleExists`). `ChainSelect` works with a rank, which exists exactly when this does not happen
  (`TieBreaker.RankedIff`).
* `SelectTried` is described as finding the least recently tried entry, but it records the position drawn before the
  swap (src/addrman.cpp:138-146), so it selects the entry it found only if that was drawn from its own place
  (`AddrManLaws.SelectsOldestIff`, with the example `AddrManLaws.SelectsWrongEntry`).

Where code and comment differ, the code is followed. Besides `SelectTried` this concerns two of the examples beside the
writer of variable-length integers: src/serialize.h:260-261 gives `80 FF 7F` for 16511 and `82 FD 7F` for 65535, while the
code writes `FF 7F` and `82 FE 7F` (`CoinFormats.KnownVarInts`, `CoinFormats.KnownLongVarInts`).

## Model

| member | source | states |
|---|---|---|
| CoinRecords.Trim | src/coins.h:93-98 | the result is a prefix that does not end in a spent output, and everything cut off was spent |
| CoinRecords.TrimKeepsOutputs | src/coins.h:93-98 | dropping trailing spent outputs changes no availability and keeps spent outputs blank |
| CoinRecords.CoinsRef.Cleanup | src/coins.h:93-98 | in place, the outputs become the trimmed list |
| CoinRecords.CoinsRef.ClearUnspendable | src/coins.h:100-106 | in place, provably unspendable outputs are blanked and the list trimmed |
| CoinRecords.CoinsRef.Spend | src/coins.cpp:31-45 | succeeds exactly on an available output; then the record and the undo entry are those of the specification; a failed call changes nothing |
| CoinRecords.SpendRemovesOne | src/coins.cpp:31-45 | spending removes exactly the named output and keeps the record well formed |
| CoinRecords.RestoreInvertsSpend | src/main.cpp:1853-1874 | restoring from the undo entry gives back the record and reports clean if and only if the record was not emptied or had a non-zero height |
| UtxoSet.View.HaveInputs | src/coins.cpp:162-181 | true exactly when every input names an available output |
| UtxoSet.View.GetValueIn | src/coins.cpp:150-160 | the sum of the values of the inputs' outputs, 0 for a coinbase |
| UtxoSet.View.SpendInputs | src/main.cpp:1684-1692 | spends the inputs in order and collects the undo entries |
| UtxoSet.View.UpdateCoins | src/main.cpp:1681-1698 | the view and the undo entry after one transaction, inputs spent before the new record is written |
| UtxoSet.View.ConnectOne | src/main.cpp:2043-2082 | accepts a transaction exactly when the input checks pass on the current view, and then applies it and adds its fee |
| UtxoSet.View.ConnectBlock | src/main.cpp:1975-2095 | returns true exactly for blocks the rules accept on this view, and then leaves the view and the undo data of the specification |
| UtxoSet.SpendAllRemoves | src/main.cpp:1684-1692 | spending pairwise different present inputs one after the other removes exactly these outputs and keeps all records well formed |
| UtxoSet.SpendingSucceeds | src/main.cpp:1688-1690 | after the checks, the program's assertion that each spend succeeds holds |
| UtxoSet.View.RestoreOne | src/main.cpp:1853-1877 | restores one input from its undo entry, tracking cleanliness |
| UtxoSet.View.RemoveTx | src/main.cpp:1828-1846 | compares the outputs with those the block created, then drops them |
| UtxoSet.View.DisconnectBlock | src/main.cpp:1804-1890 | refuses undo data that does not fit the block; otherwise the view and the clean flag are those of the reverse replay |
| UtxoUndo.RestoreAllInverts | src/main.cpp:1849-1879 | replaying a transaction's undo entries from last to first gives back the view before its inputs were spent, and is clean exactly when no record of height 0 was emptied |
| UtxoUndo.RemoveOutputsInverts | src/main.cpp:1828-1846 | removing the outputs of the last connected transaction is clean and leaves the view before its record was added |
| UtxoUndo.UndoDataFits | src/main.cpp:1820-1821 | the undo data of an accepted block has the shape the disconnect code demands |
| UtxoUndo.DisconnectInverts | src/main.cpp:1824-1880 | undoing the transactions of a connected block from the last to the first is clean exactly when nothing of height 0 was emptied on the way, and then ends in an equivalent view |
| UtxoUndo.UndoInvertsConnect | src/main.cpp:1804-1890 | main: for every accepted block above genesis, including chains of spends inside it, disconnecting reports clean if and only if every record of height 0 keeps an output the block does not spend, and a clean disconnect restores the original view, pruned counting as absent |
| UtxoUndo.SpendsAboveGenesisKeep | src/coins.cpp:31-45 | the condition holds whenever all spent records were created above height 0 |
| UtxoUndo.HeightZeroRecordIsLost | src/main.cpp:1804-1890 | a concrete block, accepted at height 120, that spends the last output of a record of height 0: disconnecting it is reported unclean |
| UtxoUndo.AliveMeansKept | src/coins.cpp:31-45 | the state-by-state loss condition is the same as the condition on the view and the block's inputs alone |
| BlockRules.ViewIsHistory | src/main.cpp:1681-1698 | at every point inside an accepted block an output is in the view if and only if it was in the view before the block or made by an earlier transaction of it, and no transaction so far spends it; it then has the value, script, coinbase flag and height it was made with |
| BlockRules.AcceptsIsLawful | src/main.cpp:1975-2095 | main: a block is accepted if and only if it keeps the rules stated over the view before it and its earlier transactions: the form of block and transactions, no id in use, every input names an output made and not spent before it, whose script check passes, which is mature or worth 0, every value and partial sum in range, no transaction and no coinbase paying too much |
| BlockRules.FailingScriptRefused | src/main.cpp:1772-1798 | main: if the script check of a single input fails on the output it names, or there is no such output, the block is not accepted |
| BlockRules.ViewAfterBlock | src/main.cpp:2042-2095 | main: after an accepted block the view holds exactly the outputs made and not spent, each with the value, script, coinbase flag, height and version it was made with |
| BlockRules.ConnectByRules | src/main.cpp:1975-2095 | ConnectBlock on a view object returns true if and only if the block keeps these rules, so one failing input makes it return false, and then leaves the view the rules describe |
| Redo.SpendInvertsRestore | src/main.cpp:1853-1875 | whatever record and undo entry: restoring an output is found clean if and only if spending it again gives back the record found, and there was one unless the entry brings a height; it then gives back the entry too |
| Redo.RecreateOutputs | src/main.cpp:1828-1846 | removing outputs is found clean if and only if the view holds the record the transaction created, apart from the version when that is negative; adding the record again then gives back the view |
| Redo.CleanDisconnectIsRedone | src/main.cpp:1804-1890 | main: from any view of tidy records and any undo data that fits, not only those a connect produced, if a disconnect reports no damage then connecting the transactions again gives back the same coins and the same undo data; so damaged undo data or a view without the block's outputs is always reported |
| Supply.SpendInputTotal | src/coins.cpp:31-45 | spending an output lowers the total unspent value by exactly its value |
| Supply.SpendAllTotal | src/main.cpp:1684-1692 | spending a transaction's inputs lowers the total by exactly the value the fee computation uses: no output is counted twice |
| Supply.EquivTotal | src/coins.h:116-124 | views that agree up to pruned records have the same total |
| Supply.ConnectTotal | src/main.cpp:2043-2082 | over a list of accepted transactions the total changes by the coinbase payouts less fees and burned outputs |
| Supply.BlockConservesValue | src/main.cpp:2042-2095 | main: the exact change of the total by an accepted block, and that it is at most the subsidy |
| Reorg.ConnectEquiv | src/main.cpp:2042-2082 | connecting respects agreement of views, pruned counting as absent |
| Reorg.ViewIsReplayOfChain | src/main.cpp:2201-2289 | main: after every run of tip connects, clean tip disconnects and flushes to the database, in any order, the view agrees with the coins of the active chain computed from nothing |
| Reorg.FlushKeepsInv | src/main.cpp:2145-2162 | writing the view to the database, which erases fully spent records, keeps the run's invariant |
| Reorg.SameBlocksSameNode | src/main.cpp:2106-2121 | main: any two flushed nodes reached by any two runs with the same active blocks have the same coins and, for every block, the same undo data, so undo data written at a block's first connection stays right when the block is connected again |
| Reorg.ReconnectsAfterFlush | src/main.cpp:2201-2289 | from a flushed node, connecting a block, disconnecting it cleanly and flushing gives back exactly the same node, which accepts the block again |
| Reorg.FlushedAllowsSpentIds | src/main.cpp:2015-2020 | after a flush an id is refused exactly when something of it is unspent |
| Reorg.FlushedRecordComesBackWrong | src/main.cpp:1853-1877 | the block of the height-0 example, undone on the flushed view: unclean, the record returns with the wrong coinbase flag and version, and the view is not the original one |
| Reorg.SupplyBounded | src/main.cpp:2042-2095 | main: over every such run, reconnected blocks and ids created again after being fully spent included, the total unspent value is at most the genesis payout plus the subsidies of the active chain's heights |
| CacheStack.CachingIsInvisible | src/coins.cpp:75-97 | keeping a copy of a record read from below changes no lookup at any level |
| CacheStack.FlushAgrees | src/coins.cpp:125-137 | after the flush of any cache the level below reads as the flushed cache did, the cache is empty and reads the same, levels above read as before, and nothing further down changes; fully spent records count as absent |
| CacheStack.FlushIsStored | src/txdb.cpp:57-67 | flushing the cache over a database without fully spent records leaves the cache's own map less exactly the fully spent records |
| CacheStack.FlushBest | src/coins.cpp:114-137 | the best block survives a flush if and only if the cache knew it, or the level below is the database or had it from below as well |
| CacheStack.FlushForgetsBest | src/coins.cpp:125-137 | a concrete three-level stack where flushing a cache that never read its best block makes the cache below forget its own |
| CacheStack.Stack.Fetch | src/coins.cpp:75-97 | at any level: returns what the level's flattened map holds, caches it there, and all levels read as before |
| CacheStack.Stack.HaveCoins | src/coins.cpp:110-112 | tells whether the top level holds a record, caching it; no lookup changes |
| CacheStack.Stack.SetCoins | src/coins.cpp:105-108 | at any cache level: that level and the levels above change as a plain map, except those shielded by a cache in between that holds the record; no other level changes |
| CacheStack.Stack.SpendRef | src/coins.cpp:99-103 | at any cache level: spending through the returned reference spends the output in the plain maps of the level and of those above that no cache in between shields, and yields its undo entry |
| CacheStack.BatchWrite | src/txdb.cpp:57-67 | the writing loop merges a batch into a cache, or into the database with fully spent records erased |
| CacheStack.Stack.Flush | src/coins.cpp:125-137 | for any cache: the plain map of the level below becomes that of the cache, every other level keeps its own, and the cache is emptied |
| CacheStack.Stack.GetBestBlock | src/coins.cpp:114-118 | returns the first known hash from the level downwards and stores it; no record changes, and the answer of every level stays what it was |
| CacheStack.Stack.SetBestBlock | src/coins.cpp:120-123 | the hash of the top level changes and nothing else |
| CacheStack.Stack.Push | src/coins.cpp:73-73 | a new cache reads as the level it is put over |
| CacheStack.Stack.Pop | src/coins.h:330-332 | dropping a cache without a flush forgets its changes and leaves the levels below as they were |
| CacheStack.Stack.HaveInputs | src/coins.cpp:162-181 | true exactly when all inputs are available at the top; then all their records are cached there; all levels read as before |
| CacheStack.Stack.GetValueIn | src/coins.cpp:150-160 | the value of the inputs at the top level, which it leaves unchanged |
| CacheStack.BackendSwap | src/coins.cpp:69-69 | once the inputs are cached, any other backend gives the same presence and the same value |
| CacheStack.PoolValueIn | src/main.cpp:1016-1060 | the memory pool's sequence (fetch over the pool view, swap in an empty backend, add up) returns the inputs' value over the pool view |
| Amounts.VarRoundTrip | src/serialize.h:278-307 | every number reads back from its variable-length form, whatever follows |
| Amounts.VarUnique | src/serialize.h:242-262 | whatever is read is exactly what would be written: one encoding per number |
| Amounts.WriteVarInt | src/serialize.h:278-292 | for every int the digit loop and the reversed output produce the specified bytes; a negative number is written as one byte, its last seven bits |
| Amounts.ReadVarInt | src/serialize.h:295-307 | the reading loop computes the specified number and rest, or fails at the end of the data |
| Amounts.AmountRoundTrip | src/core.cpp:187-230 | decompressing a compressed amount returns it, for every natural number |
| Amounts.CodeRoundTrip | src/core.cpp:187-230 | every code word is the code of the amount it stands for: the code is a bijection |
| Amounts.CompressFits | src/core.cpp:187-204 | no 64-bit overflow for amounts up to 2^60 |
| Amounts.CompressAmount | src/core.cpp:187-204 | the digit-stripping loop computes the specified code |
| Amounts.DecompressAmount | src/core.cpp:206-230 | the multiplying loop computes the specified amount |
| CoinFormats.VarIntValue | src/serialize.h:242-248 | main: the documented meaning of the code: the last seven bits of the last byte, plus for every byte before it its last seven bits plus one, weighted by powers of 128; all bytes but the last have the high bit set |
| CoinFormats.KnownVarInts | src/serialize.h:257-262 | the documented examples up to two bytes; for 16511 the comment gives three bytes and the code writes two |
| CoinFormats.KnownLongVarInts | src/serialize.h:257-262 | 65535, for which the comment gives other bytes than the code writes, and 2^32 |
| CoinFormats.KnownAmounts | src/test/compress_tests.cpp:38-45 | the codes of the amounts in the unit test and in the two documented records |
| CoinCodec.OutRoundTrip | src/core.h:265-288 | an output reads back, given a faithful script codec |
| CoinCodec.MaskRoundTrip | src/coins.h:198-209 | the reader stops after exactly the announced number of non-zero mask bytes, with the availabilities of the writer |
| CoinCodec.LastByteUsed | src/coins.cpp:13-29 | the last mask byte of a trimmed record is not zero |
| CoinCodec.CalcMaskSize | src/coins.cpp:13-29 | the number of mask bytes up to the last used one, and how many are not zero |
| CoinCodec.MakeByte | src/coins.h:172-175 | the inner loop packs eight availabilities into a byte |
| CoinCodec.RecordRoundTrip | src/coins.h:158-219 | main: for every record with something unspent and non-negative values, reading what was written returns its normal form (trimmed, spent outputs blank, of a negative number the last seven bits) and what followed; that is the record itself if and only if it is trimmed, blank where spent and without negative numbers |
| CoinFormats.RecordLayout | src/coins.h:13-32 | main: the layout of a stored record: version, header code, bitmask, unspent outputs, height; bit j of mask byte b tells whether output 2+8b+j is unspent and no zero byte ends the mask; the code's low bits are the coinbase flag and the first two outputs, above them stands the number of mask bytes that are not zero, less one if neither of the two is unspent |
| CoinFormats.FirstExample | src/coins.h:34-48 | the bytes of the first documented record, with the script's own bytes in place |
| CoinCodec.Serialize | src/coins.h:158-185 | the writer produces the specified bytes |
| CoinCodec.Unserialize | src/coins.h:187-219 | the reader computes the specified record, trimming at the end, or fails at the end of the data |
| CoinCodec.UndoRoundTrip | src/core.h:313-330 | an undo entry survives storage if and only if it has a height and a version that is not negative, or has no height and version 0 |
| CoinCodec.UndoReadsBack | src/core.h:313-330 | what is read back of any undo entry: the version is kept only with a height, and of a negative one only the last seven bits |
| CoinCodec.NormalUndoWrites | src/main.h:378-382 | an entry read back is written exactly as the original, so the checksum over what was read is the one that was stored |
| CoinCodec.HeightZeroUndoLosesVersion | src/core.h:313-330 | the undo entry that spending the last output of a height-0 record produces loses its version when stored |
| CoinCodec.NegativeVersionComesBackWrong | src/core.h:313-330 | an entry of height 5 and version -1 is written with the byte 127 and read back with version 127 |
| StoredUndo.ConnectFades | src/main.cpp:2042-2095 | connecting to a view with worn versions: the same verdict and fees, the same stored undo data, and a view worn in the same places |
| StoredUndo.OutputsMatch | src/main.cpp:1836-1843 | the comparison of outputs comes out the same on a worn record, because a negative version is overwritten before it |
| StoredUndo.DisconnectFades | src/main.cpp:1824-1880 | disconnecting a worn view with stored undo data is clean exactly when the original is with data in memory, and ends in a view worn in the same places |
| StoredUndo.MarksPruned | src/coins.cpp:31-45 | only records that are fully spent at the end of a block have undo entries with a height |
| StoredUndo.StoredUndoInvertsConnect | src/main.cpp:1804-1890 | main: for every accepted block above genesis, disconnecting with undo data read back from disk is clean if and only if every record of height 0 keeps an unspent output; it then restores the view with the negative versions of emptied records cut to seven bits, hence the view itself if and only if no record with a negative version was emptied |
| StoredUndo.NegativeVersionIsLost | src/main.cpp:1804-1890 | a concrete accepted block that empties a record of version -1: the disconnect is clean and the record returns with version 127 |
| DiskRuns.DiskRunIsRun | src/main.cpp:2101-2289 | main: every run in which flushed records and undo data go through their stored forms mirrors, step by step, a run in memory: the same blocks are accepted and disconnected, and the views differ in negative versions only |
| DiskRuns.DiskViewAgrees | src/main.cpp:2201-2289 | main: after every run through the disk each record is that of the active chain computed from nothing, or that record with its negative version cut to seven bits |
| DiskRuns.DiskAccepts | src/main.cpp:1975-2095 | main: after every run through the disk, a block gets on the flushed view the verdict it gets on the coins of the active chain computed from nothing |
| DiskRuns.DiskSupplyBounded | src/main.cpp:2042-2095 | main: the supply bound over every run through the disk |
| DiskRuns.DiskSameBlocksSameNode | src/main.cpp:2106-2121 | main: nodes of any two runs through the disk whose coins come from the database and that have the same active blocks are equal, undo data included |
| DiskRuns.DiskIsCodec | src/coins.h:158-219 | in every state such a run reaches, the stored form of a record is what the record codec reads after writing it |
| DiskRuns.DiskUndoIsCodec | src/core.h:313-330 | in every state such a run reaches, the stored form of an accepted block's undo entries is what the undo codec reads after writing them |
| CheckQueue.BatchFits | src/checkqueue.h:98-110 | the batch size computed for idle and total threads never exceeds the queue |
| CheckQueue.BatchIsShare | src/checkqueue.h:98-102 | a batch is the largest that leaves as much for every other thread, up to the size limit, but never less than one check |
| CheckQueue.Queue.Add | src/checkqueue.h:138-149 | appends the checks and counts them |
| CheckQueue.Queue.Section | src/checkqueue.h:71-113 | one pass through the critical section: clean-up, then return, sleep or take a batch, as the specification says |
| CheckQueue.Queue.TakeBatch | src/checkqueue.h:103-110 | takes the batch from the back of the queue |
| CheckQueue.Queue.Execute | src/checkqueue.h:114-118 | runs a batch; after a failure the remaining checks are skipped |
| CheckQueue.ReachableInv | src/checkqueue.h:63-149 | the protocol invariant holds in every state reached by any interleaving |
| CheckQueue.CountersExact | src/checkqueue.h:63-149 | main: in every reachable state nTodo equals queued plus in-flight checks, nTotal and nIdle count the threads, and every check added since the last return is queued, in flight or finished exactly once |
| CheckQueue.WaitIsRight | src/checkqueue.h:84-97 | main: whenever Wait returns, its result is true if and only if every check added since the last return succeeds, and nothing is queued or in flight |
| CheckQueue.QueueIsReusable | src/checkqueue.h:166-173 | at quiescence nTotal equals nIdle, nTodo is 0 and fAllOk is true |
| CheckQueue.SleepingMasterHasWorker | src/checkqueue.h:73-97 | a sleeping master that has not been notified always has a worker holding a batch |
| CheckQueue.WaitCanComplete | src/checkqueue.h:63-120 | from every reachable state with the master waiting, running only threads with a batch and then the notified master ends the wait within nTodo + 1 sections |
| CheckQueue.EveryScheduleProgresses | src/checkqueue.h:63-120 | main: under every schedule while the master waits, with workers entering and waking at will, at most nTodo batches are finished, and at every point some thread holds a batch or the master has been notified and its next section ends the wait |
| BlockTree.PathsAgreeBelow | src/main.cpp:407-421 | two root paths that meet at a height agree below it, which is what lets the walk stop early |
| ChainTip.Chain.SetVector | src/main.cpp:398-421 | the early-stopping walk leaves the whole path to the new tip, whatever path was there before |
| ChainTip.Chain.Recalculate | src/main.cpp:439-485 | the limit entered for the next period is the one the rule gives for the finished period's block sizes |
| ChainTip.Chain.UpdateLimits | src/main.cpp:435-491 | after the walk over period ends the limits are those computed from scratch |
| ChainTip.Chain.SetTip | src/main.cpp:398-496 | main: the vector is the path to the tip, and along moves from empty, to a parent or to a child the limits equal a from-scratch computation |
| ChainTip.LimitRule | src/main.cpp:444-483 | main: the limit is raised to exactly 11/10 of it, rounded down, if the mean of the period exceeds two thirds of it and at least half of the blocks exceed half of it, and otherwise stays as it is |
| ChainTip.FirstRaise | src/main.cpp:444-483 | a first period of 131,400 blocks of 1,000,000 bytes raises the limit from 1,000,000 to 1,100,000 |
| ChainTip.LimitFits | src/main.cpp:444-483 | for the first 62 periods the 32-bit arithmetic of the rule does not overflow, with blocks within their limits |
| ChainTip.Chain.MaxBlockSizeServes | src/main.h:1123-1131 | every height up to the next one is served the limit computed for the period it lies in |
| ChainTip.LimitPrefix | src/main.cpp:439-485 | a limit depends only on the blocks before its period |
| ChainTip.ChainSizeIsSum | src/main.cpp:441-446 | cumulative chain sizes are sums along the path, so their difference is the window's total |
| ChainSelect.Selector.AddToBlockIndex | src/main.cpp:2393-2450 | a new block enters the index unflagged and as a candidate, the best chain is activated, the active tip moves block by block, and the state stays valid |
| ChainSelect.Selector.PopFailed | src/main.cpp:2295-2299 | flagged blocks are dropped from the end of the most-work chain |
| ChainSelect.Selector.WalkBack | src/main.cpp:2310-2329 | looks for a flagged ancestor between the candidate and the active chain |
| ChainSelect.Selector.FlagBranch | src/main.cpp:2316-2325 | flags the branch above a flagged block and removes it from the candidates |
| ChainSelect.Selector.PickBest | src/main.cpp:2302-2308 | the highest-ranked candidate |
| ChainSelect.Selector.FindMostWorkChain | src/main.cpp:2292-2342 | leaves the path to the best candidate not known to be invalid; if a flagged block remains on it, some block was flagged by this call |
| ChainSelect.Selector.DisconnectStale | src/main.cpp:2356-2360 | disconnects down to the fork with the most-work chain, one block at a time and never a genesis block common to all |
| ChainSelect.Selector.ConnectNew | src/main.cpp:2362-2378 | connects the missing blocks one at a time, each valid; a refused block was not flagged before and is flagged now |
| ChainSelect.Selector.Round | src/main.cpp:2349-2379 | a round that meets an invalid block leaves strictly fewer candidates |
| ChainSelect.Selector.ActivateBestChain | src/main.cpp:2345-2391 | main: terminates, and on return the active tip ends a valid chain and no candidate and no block that ends a valid chain ranks higher; the trace of active chains consists of single connects of valid blocks and single disconnects |
| ChainSelect.NewlyFlagged | src/main.cpp:1643-1660 | the refused block had no flag before |
| TieBreaker.LevelLess | src/main.cpp:96-142 | between entries of equal work and height: competing siblings by their mature coins if these differ, all others by arrival, the earlier preferred |
| TieBreaker.ComparesAll | src/main.cpp:87-142 | no entry is less than itself, and of two entries exactly one is less than the other, whatever their times and coins |
| TieBreaker.TransitiveIff | src/main.cpp:85-144 | main: on any set of entries the comparator is transitive, as the ordered set requires, if and only if no entry overtakes an older sibling by its mature coins while an entry that does not compete with them arrived between the two |
| TieBreaker.CircleExists | src/main.cpp:85-144 | three blocks that the comparator puts in a circle |
| TieBreaker.SiblingsUntangled | src/main.cpp:96-131 | among siblings whose receipt times follow their arrival this never happens |
| TieBreaker.RankedIff | src/main.cpp:85-149 | main: the entries can be numbered so that the comparator compares the numbers if and only if that never happens among them |
| TieBreaker.IndexIsRanked | src/main.cpp:146-149 | so an index of such entries has the rank that the selection of the best chain works with |
| ChainCoins.ChainIsNode | src/main.cpp:2201-2289 | whatever a run did, the blocks of its chain alone determine the flushed coins and all undo data |
| ChainCoins.VerdictIsPathwise | src/main.cpp:2243-2289 | main: after every run, on a flushed node whose chain is the path to a block's parent, the block is accepted if and only if the index calls it valid |
| ChainCoins.DisconnectRuns | src/main.cpp:2201-2240 | disconnecting the tip of an accepted path from the flushed coins and flushing again gives the node of the shorter path; if the block empties a record of height 0, no clean disconnect exists |
| ChainCoins.TraceRuns | src/main.cpp:2345-2391 | the moves of the active tip, each with the flush after it, are steps of a run |
| ChainCoins.Activate | src/main.cpp:2345-2391 | main: choosing the best chain extends the run that made the coins; afterwards the best valid chain is active, the coins are those of its blocks computed from nothing, and their total is within what the chain may have issued |
| ChainCoins.Receive | src/main.cpp:2393-2450 | main: the same when a new block enters the index, whatever its verdict |
| Merkle.Block.BuildMerkleTree | src/core.cpp:346-363 | the array holds all layers one after the other and the result is the root |
| Merkle.Block.GetMerkleBranch | src/core.cpp:365-379 | the neighbours on the way from an entry to the root |
| Merkle.CheckMerkleBranch | src/core.cpp:381-394 | for every index: hashes upwards along a branch, on the side the index says; 0 for index -1 |
| Merkle.BranchReachesRoot | src/core.cpp:365-394 | every branch of the tree leads from its entry to the root |
| Merkle.BranchIsSound | src/core.cpp:381-394 | with a collision-free pair hash, a branch of the right length that leads to the root starts from the entry it is claimed for |
| Merkle.RootBinds | src/main.cpp:2596-2620 | main: with a collision-free pair hash whose range holds no transaction id, two non-empty lists of distinct ids with the same root are equal, even if their lengths were to differ |
| Merkle.DuplicateKeepsRoot | src/main.cpp:2596-2606 | repeating the last of an odd number of ids keeps the root, whatever the hash: the duplicate test is needed |
| Merkle.SmallRoots | src/core.cpp:346-363 | the roots of one, two and three ids, the third paired with itself |
| PartialMerkle.WidthStep | src/main.h:561-563 | each layer has half the nodes of the one below, rounded up |
| PartialMerkle.CalcHashIsLayer | src/main.cpp:2920-2935 | the recursive node hash is the entry of the layered tree |
| PartialMerkle.TopIsRoot | src/main.cpp:2920-2935 | the hash at full height is the merkle root of the block |
| PartialMerkle.PartialTree.Build | src/main.cpp:2985-2997 | the constructor stores the printed bits and hashes |
| PartialMerkle.PartialTree.TraverseAndBuild | src/main.cpp:2937-2953 | appends the printed subtree |
| PartialMerkle.PartialTree.TraverseAndExtract | src/main.cpp:2955-2983 | moves the cursors, the list of matches and fBad as the recursive reader specifies |
| PartialMerkle.PartialTree.ExtractMatches | src/main.cpp:3001-3032 | all checks around the traversal, with the root or failure as result; a tree marked bad always fails |
| PartialMerkle.PrintedSizes | src/main.cpp:3006-3015 | the printed tree passes the reader's size checks: no more hashes than transactions, at least one bit for each hash |
| PartialMerkle.RoundTrip | src/main.cpp:2937-3032 | main: extraction from a built tree, padded to whole bytes or not, is not bad, consumes all printed bits and hashes, and returns the root of the block and the wanted ids in order |
| PartialMerkle.ExtractionIsSound | src/main.cpp:2955-3032 | main: with a collision-free hash, for arbitrary bits and hashes and the true number of transactions, an extraction that yields the true root yields real ids at ascending positions |
| PrunedTrees.TreeOfRead | src/main.cpp:2955-2983 | whatever is read without running out of data is the preorder of a pruned tree over the transactions, standing at the cursors, with that tree's hash and wanted ids, and the cursors move past it |
| PrunedTrees.RootMeansTree | src/main.cpp:3001-3032 | main: a root is returned only if the sizes pass and the message is exactly the preorder of a pruned tree: every hash is used, and every bit up to the padding of the last byte; the root and the matches are then that tree's |
| PrunedTrees.TreeMeansRoot | src/main.cpp:3001-3032 | main: conversely, the message of every pruned tree within the size limits yields that tree's root and wanted ids |
| PrunedTrees.PrintedIsLean | src/main.cpp:2937-2953 | main: the constructor prints the preorder of a pruned tree with the block's root and the wanted ids in which only nodes above a wanted transaction are opened |
| AddrManOps.Manager.Find | src/addrman.cpp:83-94 | finds the entry with this network address if there is one |
| AddrManOps.Manager.Create | src/addrman.cpp:96-106 | a new entry in every index, in no bucket yet |
| AddrManOps.Manager.SwapRandom | src/addrman.cpp:108-126 | swaps two places of the random vector and the stored positions |
| AddrManInv.SwapInv | src/addrman.cpp:108-126 | swapping keeps the invariant and changes entries only in their stored position |
| AddrManOps.InspectBucket | src/addrman.cpp:133-147 | the inspection loop of SelectTried: a permuted bucket and an in-range position, as specified draw by draw |
| AddrManOps.Manager.SelectTried | src/addrman.cpp:128-150 | only the inspected bucket changes, to a permutation, and the position is the one specified draw by draw |
| AddrManOps.FindTerrible | src/addrman.cpp:157-175 | the first terrible entry in ascending order, if any |
| AddrManOps.OldestDrawn | src/addrman.cpp:177-191 | the first of the least recently seen entries among the four drawn positions |
| AddrManOps.Manager.Erase | src/addrman.cpp:166-171 | deletes an entry from every index |
| AddrManOps.Manager.ShrinkNew | src/addrman.cpp:152-204 | drops one reference of the chosen entry, and keeps the invariant even while another entry is counted but not yet listed |
| AddrManInv.DropInv | src/addrman.cpp:152-204 | evicting a listed entry keeps the invariant up to the pending entry, and every other entry survives |
| AddrManOps.Manager.Unlist | src/addrman.cpp:210-218 | out of every new bucket, counting the references down to exactly none |
| AddrManOps.Manager.MakeTried | src/addrman.cpp:206-262 | the tables become those of the specification, with or without eviction, and the invariant is kept |
| AddrManInv.PromoteInv | src/addrman.cpp:220-233 | promotion into a bucket with room keeps the invariant |
| AddrManInv.ReplaceInv | src/addrman.cpp:234-261 | replacing a tried entry, which finds room in a new bucket, keeps the invariant |
| AddrManOps.Refuge | src/addrman.cpp:236-254 | the evicted entry's own bucket if it has room, else the promoted entry's, which then certainly has room |
| AddrManOps.PromotionKeepsEntries | src/addrman.h:214-221 | promotion deletes no entry |
| AddrManOps.Manager.Good | src/addrman.cpp:264-311 | unknown address or other port: nothing; already tried: statistics only; otherwise promotion from the first bucket found; the bail-out for a missing bucket never happens; the invariant is kept |
| AddrManOps.FindBucket | src/addrman.cpp:289-306 | the first bucket holding the entry in a cyclic search, if any |
| AddrManOps.Manager.Add | src/addrman.cpp:313-368 | new or known entry, refreshed and listed as specified, with an eviction exactly from a full bucket; reports whether the address was new; the invariant is kept |
| AddrManOps.ListedInv | src/addrman.cpp:358-366 | listing keeps the invariant although ShrinkNew runs while the reference is counted but not listed |
| AddrManOps.TriedNeverDeleted | src/addrman.h:214-217 | adding an address never deletes or changes a tried entry |
| AddrManOps.Factor | src/addrman.cpp:345-350 | the loop computes two to the number of references |
| AddrManOps.Manager.Attempt | src/addrman.cpp:370-387 | statistics of the exact service only; the invariant is kept |
| AddrManOps.Manager.Connected | src/addrman.cpp:509-527 | the time stamp of the exact service, only when older than twenty minutes; the invariant is kept |
| AddrManOps.Manager.GetAddr | src/addrman.cpp:493-507 | 23 percent of the entries and at most 2500, pairwise different addresses of known entries; only positions in the random vector change; the invariant is kept |
| AddrManOps.Manager.constructor | src/addrman.h:383-391 | an empty manager satisfies the invariant |
| AddrManRuns.PerformedInv | src/addrman.cpp:264-527 | each operation, as its method promises it, keeps the invariant |
| AddrManRuns.PerformedStats | src/addrman.cpp:264-527 | each operation with a positive clock reading keeps the statistics sound |
| AddrManRuns.EveryRun | src/addrman.cpp:264-527 | main: every run of Add, Good, Attempt, Connected, GetAddr and restarts from an empty manager keeps the invariant and, with positive clock readings, sound statistics |
| AddrManRuns.CheckAfterRun | src/addrman.cpp:434-490 | main: after every such run the program's own consistency check reports 0 |
| AddrManLaws.WhatShrinkNewTakes | src/addrman.cpp:45-63 | main: ShrinkNew deletes the worthless entry with the smallest id if and only if there is one, where the five reasons are given in seconds and attempts; otherwise it takes, of the entries at the four drawn ranks, one seen least recently |
| AddrManLaws.UnreachedEntry | src/addrman.cpp:45-63 | main: an entry never reached, with a sound stamp, may be deleted after exactly three attempts or more, once a minute has passed since the last |
| AddrManLaws.ReachedEntry | src/addrman.cpp:45-63 | main: for a month after a success an entry may be deleted if and only if ten attempts or more followed it, a week has passed since, and a minute since the last attempt |
| AddrManLaws.SucceededEntry | src/addrman.cpp:264-311 | after Good the entry is tried and its stamps are the given time, with no failed attempts |
| AddrManLaws.StrangersIgnored | src/addrman.cpp:264-527 | Good, Attempt and Connected change nothing for an address that is unknown or known with another port |
| AddrManLaws.ConnectedEntry | src/addrman.cpp:509-527 | a connection moves the stamp only, to the given time, exactly if that is more than twenty minutes later |
| AddrManLaws.FoundFirst | src/addrman.cpp:289-299 | the bucket a promoted entry is taken from is the first that holds it, going round from the drawn one |
| AddrManLaws.FirstAnnouncement | src/addrman.cpp:313-368 | main: a first announcement makes one entry with its stamp less the penalty, not below 0, one reference and no history, in the new bucket of its address and source, whatever that evicts |
| AddrManLaws.RepeatedAnnouncement | src/addrman.cpp:319-367 | main: a repeated announcement adds its services, moves the stamp exactly when it is missing or older by more than an hour (a day for an announcement that old itself) and the penalty, and adds a reference exactly if the entry is new with fewer than four, the announcement is newer, the draw of one in 2^n allows it and the bucket lacks it |
| AddrManLaws.SelectsOldestIff | src/addrman.cpp:128-150 | main: SelectTried finds the first of the inspected entries with the oldest success, but the position it returns holds that entry if and only if it was drawn from its own place |
| AddrManLaws.SelectsWrongEntry | src/addrman.cpp:128-150 | two entries and draws with which the entry that succeeded later is selected |
| AddrManLaws.PromotionPlace | src/addrman.cpp:220-261 | main: where a promoted entry and the entry it replaces go, with the sizes and the number of draws given as numbers |
| AddrManLaws.Capacity | src/addrman.h:123-145 | in a valid state: 64 tried and 256 new buckets of at most 64 entries; a tried entry stands in a tried bucket, a new one in one to four new buckets |
| AddrManCheck.CheckEntries | src/addrman.cpp:441-463 | 0 exactly when every entry passes; then the collected sets are the tried entries and the new entries with their reference counts |
| AddrManCheck.CheckTriedBuckets | src/addrman.cpp:468-476 | in a valid state every tried entry is met exactly once, so none is missing and none is left over |
| AddrManCheck.CheckNewBuckets | src/addrman.cpp:478-487 | in a valid state the counters reach 0 exactly as the buckets are walked, so none is missing and none is left over |
| AddrManCheck.Check | src/addrman.cpp:434-490 | main: in every state satisfying the invariant the program's own consistency check reports 0 if and only if no statistic is negative and every tried entry has had a success |
| AddrManDisk.Save | src/addrman.h:280-318 | writes the new entries, the tried entries and each bucket by new numbers, in the order of the ids |
| AddrManDisk.IsoInv | src/addrman.cpp:434-490 | tables isomorphic to valid ones are valid |
| AddrManLoad.LoadNew | src/addrman.h:322-341 | for every readable file: entries, address index (the last entry with an address wins) and random vector of the new entries, with rebuilt buckets if the file has another number of them |
| AddrManLoad.LoadTried | src/addrman.h:342-361 | for every readable file: the tried entries that find room, of each bucket the first 64, and how many are lost |
| AddrManLoad.LoadBuckets | src/addrman.h:362-378 | for every readable file: each listed id gets at most four references, a bucket holds the ids it lists that were listed fewer than four times before, and an unknown id creates a blank entry |
| AddrManLoad.Load | src/addrman.h:319-380 | the loaded tables are those specified for the file, and nLost counts the tried entries left out |
| AddrManLoad.HeldCount | src/addrman.h:371-376 | an id's reference count equals the number of buckets holding it if and only if no bucket repeats it below the cap |
| AddrManLoad.LoadsValidIff | src/addrman.h:319-380 | main: the tables loaded from any readable file satisfy the invariant if and only if no two entries share an address, all listed ids are known (new, if the lists are used), no new bucket exceeds 64 and, if the lists are used, every new entry is listed and none twice in a bucket below the cap |
| AddrManLoad.NothingLost | src/addrman.h:343-358 | every saved tried entry finds room in its bucket |
| AddrManLoad.SavedRefs | src/addrman.h:371-376 | the cap of four references never cuts off a saved reference |
| AddrManLoad.SavedLoads | src/addrman.h:249-381 | what was saved from a valid state loads into tables equal up to renumbering and memory-only fields |
| AddrManLoad.SaveThenLoad | src/addrman.h:249-381 | main: from every valid state, saving and loading loses nothing and yields equal tables up to renumbering and memory-only fields, which satisfy the invariant |
| AddrManLoad.RebuiltIff | src/addrman.h:266-270 | a saved file read with another number of buckets loses no tried entry, and the result is valid if and only if no rebuilt bucket exceeds 64 entries |
| AddrManLoad.RebuildOverflows | src/addrman.h:335-339 | 65 entries that hash to one bucket: the rebuilt tables violate the invariant |
| Base58.MulAdd | src/base58.cpp:76-86 | the in-place carry loop multiplies and adds exactly, including the carry that leaves the buffer |
| Base58.EncodeFits | src/base58.cpp:73-84 | the base-58 buffer is large enough for every length |
| Base58.DecodeFits | src/base58.cpp:31-46 | the base-256 buffer is large enough for every length |
| Base58.Convert | src/base58.cpp:73-90 | digit by digit conversion yields the numeral without leading zeros, and every carry that the program asserts to be 0 is 0 |
| Base58.Encode | src/base58.cpp:66-98 | one '1' for each leading zero byte, then the number in base 58 |
| Base58.Decode | src/base58.cpp:21-64 | accepts exactly spaces, '1's, alphabet characters and spaces, and returns the bytes they stand for |
| Base58.EncodeThenDecode | src/base58.cpp:21-98 | main: decoding an encoding returns every byte vector, leading zeros included |
| Base58.DecodeThenEncode | src/base58.cpp:21-98 | main: encoding what was decoded returns the string without the spaces around it |
| Base58.ValidStringRoundTrip | src/base58.cpp:21-98 | every string of alphabet characters decodes, and encodes back to itself |
| Base58.AlphabetAt | src/base58.cpp:18-19 | digit d is written as character d of the alphabet string |
| Base58.DecodesIff | src/base58.cpp:21-64 | main: a string decodes if and only if it consists of blanks, characters of the alphabet, and blanks; everything else is refused |
| Base58.KnownNumbers | src/test/data/base58_encode_decode.json:1-4 | known encodings |
| Base58.TrimmedIsPart | src/base58.cpp:22-52 | the string without spaces is the part of the input after the leading spaces, and holds none |
| Base58.EncodeCheck | src/base58.cpp:108-114 | encodes the data followed by its checksum |
| Base58.DecodeCheck | src/base58.cpp:116-132 | refuses what does not decode, is shorter than four bytes or has the wrong checksum |
| Base58.CheckRoundTrip | src/base58.cpp:108-132 | the checksummed form decodes to the data |
| Base58.CheckAcceptsOnlyEncodings | src/base58.cpp:116-132 | whatever is accepted is what the encoder writes, up to spaces |
| Compact.PartsFit | src/bignum.h:313-335 | size and mantissa of every positive number satisfy one inequality that determines both |
| Compact.EncodeMonotone | src/bignum.h:313-335 | encoding is monotone |
| Compact.DecodeMonotone | src/bignum.h:294-335 | what codes decode to is monotone in the numbers they were made from |
| Compact.KnownCodes | src/test/bignum_tests.cpp:128-215 | the codes and values of the unit test |
| Compact.EncodeClose | src/bignum.h:294-335 | the decoded code is at most the number, with relative error strictly below 2^-15 for positive numbers |
| Compact.EncodeNegative | src/bignum.h:313-335 | a negative number decodes to the negative of what its absolute value decodes to |
| Compact.ReencodeIff | src/bignum.h:294-335 | re-encoding a decoded code without sign is the identity if and only if the code is canonical |
| Retarget.GetNextWorkRequired | src/main.cpp:1438-1501 | for every chain, codes with a sign included: the walk back always finds the first block of the window; the result is the specified code, on both networks |
| Retarget.StepBounds | src/main.cpp:1478-1494 | one retarget never exceeds the limit or 3/2 of the old target, and undercuts 3/4 of it (or the limit) only by truncation, strictly less than one part in 2^15 |
| Retarget.RetargetInNumbers | src/main.cpp:1469-1494 | main: at a retarget the next code is that of the old target scaled by the measured time, 3/4 of it at 180 seconds or less, 3/2 of it at 360 seconds or more, in proportion to 240 seconds between, and capped by the limit; at 240 seconds it is the old target |
| Retarget.SlowerIsEasier | src/main.cpp:1469-1494 | main: with the same old target, a longer measured window never gives a smaller target |
| Retarget.BetweenRetargets | src/main.cpp:1446-1467 | between retargets the code of the last block is kept off the test network |
| Retarget.TestnetRule | src/main.cpp:1448-1465 | on the test network: the limit's code for a block more than two spacings late, otherwise the code of the last block that is not such an exception |
| Retarget.NeverAboveLimit | src/main.cpp:1491-1492 | along every chain off the test network no target exceeds the limit |
| Retarget.GrowsAtMostByHalf | src/main.cpp:1482-1483 | from block to block the target grows at most by half |
| Retarget.FallsAtMostByQuarter | src/main.cpp:1480-1481 | from block to block the target falls at most by a quarter, but for rounding and truncation |
| Retarget.CodesCanonical | src/main.cpp:1494-1500 | every code along such a chain is canonical |
| Retarget.RetargetUsesMeasured | src/main.cpp:1469-1494 | at each boundary the next code is the adjusted old target for the clamped time measured for that window |
| Retarget.WindowsTelescope | src/main.cpp:1469-1479 | the times the retargets measure, window after window, add up to the time stamp of the last boundary block less that of the first block |
| KeccakF.ThEltIs | src/keccak.c:958-973 | the grouped exclusive-ors are the parities of two columns |
| KeccakF.ThetaComplement | src/keccak.c:975-1014 | theta takes the six complemented lanes to a mask of twelve |
| KeccakF.ChiComplement | src/keccak.c:1047-1135 | the KHI macro on the twelve complemented lanes is plain chi with the six complemented again |
| KeccakF.MacroRound | src/keccak.c:1392-1397 | one round of the macros on a complemented state is one plain round, complemented |
| KeccakF.Elt0Round | src/keccak.c:1139-1142 | with the renamings of rounds 0 and 1, the implicit pi is right (likewise for the other seven) |
| KeccakF.P8ToP0 | src/keccak.c:1313-1347 | the moves through one temporary undo the renaming after eight rounds |
| KeccakF.EightRounds | src/keccak.c:1454-1466 | eight unrolled rounds are eight plain rounds |
| KeccakF.Permute | src/keccak.c:1454-1467 | main: on every state, the permutation with six lanes complemented before and after is 24 plain rounds |
| Fips202.ThetaHolds | src/keccak.c:975-1014 | theta changes a bit by the parities of two columns, section 3.2.1 of FIPS 202 |
| Fips202.RhoHolds | src/keccak.c:1016-1045 | rho turns each lane by the offset that the walk of section 3.2.2 of FIPS 202 gives |
| Fips202.IotaHolds | src/keccak.c:1392-1397 | adding a table entry is the iota of section 3.2.5 of FIPS 202, whose constant bits come from the shift register |
| Fips202.RCSpread | src/keccak.c:137-150 | every entry of the constant table has the bits that the shift register holds when its round begins, at the places 2^j - 1, and no others |
| Fips202.RoundsHold | src/keccak.c:1454-1467 | main: the plain rounds are, bit by bit, the step mappings of sections 3.2 and 3.3 of FIPS 202 on the state array |
| Keccak.XorInComplement | src/keccak.c:183-188 | adding input commutes with the complemented lanes |
| Keccak.Context.Init | src/keccak.c:1525-1566 | the initial state is the complemented zero state |
| Keccak.Context.Core | src/keccak.c:1568-1603 | any split of the input into calls only appends to the message; state and buffer are determined by the message |
| Keccak.PaddingIsPad101 | src/keccak.c:1618-1634 | main: the closing bytes are the extra bits, a one, fewer zeros than a block has bits, and a one, ending a block |
| Keccak.Context.Close | src/keccak.c:1607-1647 | main: read as bit strings, the digest is the one FIPS 202 defines with rate 8 lim for the message and its extra bits: sponge, padding, step mappings and round constants all as in the standard; and the context is fresh again |
| Keccak.Squeeze | src/keccak.c:1643-1645 | whole lanes, least significant byte first, cut to the digest length |
| Keccak.AbsorbHolds | src/keccak.c:183-188 | absorbing the bytes of a block is, bit by bit, adding the block's bits to the state array at the places of section 3.1.2 of FIPS 202 and applying 24 rounds |
| Keccak.DigestByte | src/keccak.c:1643-1645 | bit j of digest byte k is bit 8(k mod 8)+j of lane (x, y) with x + 5y = k/8, for the state array of FIPS 202 |
| Keccak.HashIsFips | src/keccak.c:1607-1647 | main: the hash computed by lanes and bytes is the sponge construction of section 4 of FIPS 202 with its pad10*1 on bit strings |
| Stream.RunAppend | src/blake.c:905-941 | a message may be cut anywhere: processing the first part, keeping its rest and going on gives the same state and rest |
| Blake.CounterStep | src/blake.c:933-934 | adding a block to the two counter words carries correctly, modulo 2^128 |
| Blake.RunIsRef | src/blake.c:905-941 | over whole message blocks the running state is the reference chain and the counter the exact number of bits |
| Blake.PresubtractRight | src/blake.c:957-971 | after the close-time edit, advancing by a block gives the number of message bits, or 0 for a block without any |
| Blake.Context.Update | src/blake.c:905-941 | any split of the input into calls only appends to what was fed |
| Blake.PaddingBits | src/blake.c:957-990 | the padding is a one, fewer than 1024 zeros, the size bit and the message length as a 128-bit number, most significant bit first, up to the end of a block |
| Blake.LengthBits | src/blake.c:976-977 | the sixteen bytes of the length field are the number of message bits modulo 2^128, most significant bit first |
| Blake.EncodeBits | src/blake.c:991-993 | a chain word is written most significant bit first |
| Blake.PaddedRight | src/blake.c:943-994 | message and padding together are whole blocks that spell, in bits, the message, its extra bits, a one, zeros, the size bit and the length of the message in 128 bits |
| Blake.Context.Close | src/blake.c:943-994 | main: for a message padded as the standard says, length field included, the digest bits are the reference chain words cut to six or eight, most significant bit first, every compression with the number of message bits hashed so far, or 0 for a block with none |

## Left out

- Network messages, wallet, memory-pool policy, initialisation, alerts, RPC and the user interface: plumbing around the core.
- Block files, LevelDB, file positions, and the length prefixes and checksums of undo files: a written block is taken to read back unchanged, and so are the bytes of records and undo entries.
- Script evaluation, signatures, SHA-256 and RIPEMD: abstract functions.
- The floating-point subsidy curve of GetBlockValue (src/main.cpp:1376-1398): an abstract non-negative function of height and flag.
- nTotalCoinsCreated in SetTip: documented as approximate (src/main.cpp:410-412).
- Redo.CleanDisconnectIsRedone: transactions with a negative version are excluded; the program overwrites the version of the record it compares, so it does not look at it (src/main.cpp:1837-1841). `Redo.RecreateOutputs` covers them.
- UtxoSet.View.ConnectBlock: signature-operation limits, serialized sizes, the length limit of the coinbase script, proof of work and time stamps are not modelled: further conjuncts that only refuse more blocks.
- 64-bit overflow of sums of values: the range checks keep them far below it; 32-bit overflow in the size-limit computation is excluded for 62 periods only (`ChainTip.LimitFits`).
- TieBreaker.IndexIsRanked: the values the comparator reads are fixed while candidates are ranked; how CountMatureCoins computes the mature coins of a block is not modelled (src/main.cpp:1924-1973).
- ChainSelect.Selector.ActivateBestChain: works with a rank of the candidates; for entries the comparator puts in a circle there is none, and the behaviour of the ordered set is then undefined.
- Corruption-type failures and disk errors in ActivateBestChain. In `ChainSelect` block validity is a deterministic parameter; `ChainCoins` takes it from the coins.
- ChainCoins.Activate: no valid block may empty a record of height 0; such a block could not be disconnected, and the program gives up (src/main.cpp:2213-2214, 2358-2359).
- When a flush happens (src/main.cpp:2147): runs may flush after any step or never; between flushes a cached pruned record still counts as present (src/main.cpp:2015-2020), as in the program.
- fQuit in the check queue: never set by the program.
- CheckQueue.WaitCanComplete: fairness of the scheduler is not modelled; CheckQueue.EveryScheduleProgresses bounds the work under every schedule.
- Select_ and GetChance of the address manager: floating-point choice.
- 32-bit truncation of time stamps and overflow of counters in the address manager.
- AddrManLoad.Load: files that end early, and negative counts or ids in a damaged file, are not modelled. For a file that announces more than 256 new buckets the program forms references past the end of vvNew that it never uses (src/addrman.h:364); the model reads on. The routines work on table values, not on a manager object.
- CacheStack.Stack.Fetch: layers form one stack, so sharing of a base between caches is not captured.
- CoinCodec.OutRoundTrip: script compression is a parameter with a round-trip assumption.
- Compact.EncodeMonotone: stated for non-negative numbers; the code of a negative number carries the sign bit and is not ordered with the others.
- ComputeMinWork (src/main.cpp:1409-1433): not used by the retarget rule.
- Base58.Decode: the alphabet string is written as character ranges; strings are without NUL characters.
- The 32-bit and bit-interleaved variants of Keccak and unroll counts other than eight; the sponge is squeezed once, as every digest is shorter than a block.
- KeccakF.Elt0Round: one row stands for the eight lemmas of the eight renamings.
- Blake.Context.Close: the compression function is a parameter and the salt is fixed within it.
- PartialMerkle.PartialTree.Build: an empty list of transactions is excluded; the program would read past its end (src/main.cpp:2923).
- Groestl, JH, the order table of ZR5, limitedmap, mruset and the keystore: large constants or easy containers.
