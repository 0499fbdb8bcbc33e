# A verified model of the node

This project models the parts of a Bitcoin/PPCoin-style node whose correctness is decided by its own code:
the chain state machine over a transactional index, synchronized checkpoints, the peer address manager with
its file format, the wire parser, the block template builder, and the consensus algorithms and codecs beside
them. Everything is proved by `dafny verify dfyconfig.toml`.

How the files fit together:

- **Ledger and chain.** `Ledger` says what connecting and disconnecting a block does to the index of spent
  outputs; `LedgerLaws` proves conservation and the "pruned index" simulation that covers overwritten, fully
  spent ids. `TxDatabase` holds the database with its open batch and the methods of the source, each tied to
  the ledger functions. `BlockTree`, `ChainSpec`, `ChainWalk` and `ChainState` do the same for the block tree,
  the two-pointer walks, `Reorganize` and `SetBestChain`. `ChainLaws` proves what every run keeps, `LinkLaws` what
  even a call with a refused postponed block keeps, `FreshIds` the exact statements for blocks with fresh ids,
  `AcceptedIds` that accepted blocks have fresh ids, `SwitchConditions` when a switch succeeds, with a failing run in
  `RefusedExample`, `Rewards` and `Inflation` the bound on the money supply along the best chain, `Checkpoints` and
  `CheckpointState` finality.
- **Address manager.** `AddrTables` is the five redundant indexes as one value, with the invariant and the
  elementary updates; `AddrMan` the class; `AddrCheck` the executable self-check; `AddrFile` saving and
  loading; `AddrRoundTrip` that nothing is lost. `Ascend` iterates over ordered sets.
- **Wire format.** `Framing` is the printer and parser as functions with their laws, `Node` the send and
  receive buffers.
- **Block template.** `BlockAssembly` says what a chosen list of transactions satisfies and why the block
  connects; `Miner` is the scheduler.
- **Algorithms.** `Merkle`, `MedianTime`, `Locator`, `StakeModifier`, `BigNum`, `Compact`, `Retarget`,
  `Base58`, `LockedPages`.

The style throughout: code that updates state is a method proved equal to a function of the old state, and
the properties are lemmas about that function.

Where the code and the description of it differ, the code is followed:

- `SetBestChain` still moves the tip when a postponed block is refused. `SetBestChainExactly` says when a call
  leaves the node consistent, in terms of the blocks and the verdicts on them, and `PostponedRefusedExample` is a
  run, in which every block passes the checkpoint test, where it does not: a sync-checkpoint moves the node to a
  block on a lighter branch, whose child is already known, and then a block arrives on that child. The child is
  connected, the new block is refused, and becomes the tip. The finality of checkpoints does not depend on it.
- `ConnectBlock` lets a block overwrite a fully spent transaction with the same id. The set of unspent outputs
  survives a disconnect (`DisconnectRestoresUnspent`), but older blocks that spend from the erased entry can then no
  longer be disconnected. `ReusedIdsExactly` says when a chain can be; `ReusedIdExample` is one that cannot. Both are
  about `ConnectBlock` and `DisconnectBlock` alone: `AcceptBlock` demands that a coinbase begins with the height of its
  block, so along a chain of accepted blocks no id recurs (`AcceptedChainIsFresh`) and disconnecting never fails.
- `SelectTried` records a position before the swap at that step, so what it returns is not always the place of
  the oldest entry inspected. `InspectMissesOldest` says exactly when it is.
- A negative spacing counts as one second and a target that rounds down to zero becomes the limit, so the
  retarget is not monotone everywhere; `SpacingOrder` gives the exact condition for all spacings, and
  `NegativeSpacingIsNotMonotone` an example where it fails.
- `GetDistanceBack` overshoots when only the trailing genesis entry matched (`DistanceIsDepth`).
- The bound on stake rewards needs no assumption that fees fit an `int`: the conversion can only lower them.

## Model

| member | source | states |
|---|---|---|
| Ledger.SpendMarks | src/main.cpp:1588-1627 | spending succeeds only on unspent, pairwise different outpoints, and changes nothing but their flags |
| Ledger.ReleaseUndoesSpend | src/main.cpp:1394-1417 | releasing the inputs of a transaction gives back the index from before they were spent, in-block spends included |
| Ledger.DeadStaysPut | src/main.cpp:1750-1761 | no transaction of a block spends from an id that was absent or fully spent before the block itself has a transaction with it, and only such a transaction touches its entry |
| Ledger.ConnectedIdsWereDead | src/main.cpp:1754-1761 | a block only connects if every id in it was absent or completely spent |
| Ledger.DisconnectUndoesConnect | src/main.cpp:1690-1695 | disconnecting a block that connected never fails and leaves the old index without the ids of the block: exactly the old index if none of them was there |
| LedgerLaws.PrunesConnectTxs | src/main.cpp:1750-1804 | connecting does the same on an index from which fully spent entries are missing |
| LedgerLaws.DisconnectPrunes | src/main.cpp:1394-1427 | disconnecting after connecting leaves the old index up to missing fully spent entries |
| LedgerLaws.DisconnectRestoresUnspent | src/main.cpp:1420-1424 | connect then disconnect never fails and restores exactly the set of unspent outpoints, overwritten ids included |
| LedgerLaws.ConnectConserves | src/main.cpp:1790-1821 | the value of all unspent outputs grows by exactly the outputs minus the inputs of the block |
| LedgerLaws.NetCreation | src/main.cpp:1790-1821 | that growth is the coinbase plus the stake reward minus the fees, and fees are never negative |
| LedgerLaws.TotalNonNegative | src/main.cpp:1598-1620 | the value of unspent outputs is never negative |
| Rewards.InflationBound | src/main.cpp:1125-1137 | from the last fork height on, a proof-of-stake block creates at most 0.02 * supply / 485169, whatever its fees |
| Inflation.EveryBlockAccepted | src/main.cpp:1979-2056 | after any run, each block of the best chain was accepted on top of the replay of exactly the blocks before it, whichever call connected it |
| Inflation.StakeBlockInflation | src/main.cpp:1806-1821 | after any run, every such block of the best chain has raised the recorded supply by at most that much |
| Inflation.StretchInflation | src/main.cpp:1125-1137 | so over a stretch of such blocks the supply grows at most by the factor 1 + 0.02 / 485169 per block |
| TxDatabase.TxDb.TxnBegin | src/txdb-leveldb.cpp:144-149 | opens a batch without changing what is read |
| TxDatabase.TxDb.TxnCommit | src/txdb-leveldb.cpp:151-162 | the database becomes what was read through the batch |
| TxDatabase.TxDb.TxnAbort | src/txdb-leveldb.h:168-173 | the database is as before the batch |
| TxDatabase.TxDb.ScanBatch | src/txdb-leveldb.cpp:164-206 | the last operation of the batch on a key decides, and a deletion hides the database |
| TxDatabase.TxDb.ReadTxIndex | src/txdb-leveldb.h:59-98 | reads see the batch over the database |
| TxDatabase.DisconnectInputs | src/main.cpp:1394-1427 | releases the inputs in order and erases the transaction, or fails exactly when an input is not in the index |
| TxDatabase.DisconnectBlock | src/main.cpp:1690-1695 | disconnects the transactions last to first, and reports failure exactly when one fails |
| TxDatabase.FetchInputs | src/main.cpp:1430-1503 | succeeds exactly if every input refers to an existing output, seen through the proposed changes |
| TxDatabase.CheckInputValues | src/main.cpp:1557-1584 | the first loop of ConnectInputs: times, ranges and the running sum |
| TxDatabase.SpendInputs | src/main.cpp:1588-1627 | the second loop: rejects a spent output, else marks it in the proposed changes |
| TxDatabase.ConnectInputs | src/main.cpp:1547-1648 | accepts exactly if the rules, the fee rule and the spending succeed, and then holds the resulting view |
| TxDatabase.ConnectOne | src/main.cpp:1750-1804 | one turn of the loop of ConnectBlock is one step of the ledger |
| TxDatabase.ConnectBlock | src/main.cpp:1714-1838 | accepts exactly the blocks the ledger and the reward rule accept, writes their view, and records the parent's supply plus outputs minus inputs |
| BlockTree.PathAt | src/main.h:1300-1303 | position i of a path is the block of height i, and its own path is the part up to it |
| BlockTree.ForkIsCommonPrefix | src/main.cpp:1861-1873 | two blocks have a deepest common ancestor: the end of the common prefix of their paths |
| BlockTree.ForkUnique | src/main.cpp:1861-1873 | there is only one such block |
| BlockTree.LinksAt | src/main.cpp:1930-1938 | the forward links of a chain invert its parent links and exist for all its blocks but the last |
| ChainWalk.FindFork | src/main.cpp:1861-1873 | the two-pointer loop ends at the last block the chains share |
| ChainWalk.ListDown | src/main.cpp:1875-1884 | lists the blocks above the fork, tip first |
| ChainWalk.FindIntermediate | src/main.cpp:2000-2012 | finds the lowest block of the new chain whose parent does not outweigh the current chain, and the blocks to postpone |
| ChainWalk.WalkToHeight | src/main.cpp:990-995 | walking by parent or forward links from any block of a chain reaches its block of the given height |
| ChainLaws.ReorganizeKeeps | src/main.cpp:1857-1951 | a successful reorganisation makes links, index and supplies describe the new chain; a failed one changes neither index nor links |
| ChainLaws.InnerKeeps | src/main.cpp:1955-1977 | extending by one block does too, or changes nothing |
| ChainLaws.SwitchBranchKeeps | src/main.cpp:2000-2041 | after a switch the node describes the whole new chain if and only if no postponed block was refused |
| ChainLaws.SetBestChainKeeps | src/main.cpp:1979-2056 | the same for SetBestChain, including the case that it fails |
| ChainLaws.RunKeeps | src/main.cpp:2161-2223 | every run of arrivals and forced switches keeps the node consistent |
| ChainLaws.InMainChainIffAncestor | src/main.h:1300-1303 | IsInMainChain holds exactly for the ancestors-or-self of the best block |
| ChainLaws.EveryRun | src/main.cpp:1979-2056 | from a fresh node, after any run: main-chain membership, forward links, unspent outputs equal to a replay from an empty index, and money supply equal to their value |
| LinkLaws.SetBestChainAnchors | src/main.cpp:1979-2056 | every call, also one in which a postponed block is refused, leaves the tip in the tree and forward links only on proper ancestors of it; one that fails changes at most recorded supplies |
| LinkLaws.InMainChainIsAncestor | src/main.h:1300-1303 | so what IsInMainChain accepts is always the tip or an ancestor of it |
| SwitchConditions.DisconnectsExactly | src/main.cpp:1889-1903 | the end of the best chain can be disconnected if and only if none of its blocks spends from an id missing in the index or used again by a later of them |
| SwitchConditions.ReorganizesExactly | src/main.cpp:1857-1951 | a reorganisation succeeds if and only if that holds above the fork and each block of the new branch is accepted on top of the replay of the chain below it |
| SwitchConditions.SetBestChainExactly | src/main.cpp:1979-2056 | SetBestChain succeeds if and only if the switch to the pivot can be made, and then leaves the node consistent if and only if the blocks above the pivot are accepted on top of those below |
| SwitchConditions.SetBestChainReorganizes | src/main.cpp:1998-2041 | postponing makes no difference to what can be switched to: a call succeeds and leaves the node consistent if and only if one reorganisation all the way to the new block would succeed |
| RefusedExample.PostponedRefusedExample | src/main.cpp:2038-2054 | a run of arriving blocks and a sync-checkpoint, all of them passing the checkpoint tests, with one verdict per block throughout, after which the tip is a block that was refused |
| FreshIds.DisconnectAllExact | src/main.cpp:1889-1903 | with fresh ids, disconnecting the end of a chain never fails and gives exactly the replay of the rest |
| FreshIds.ReorganizeExact | src/main.cpp:1857-1951 | with fresh ids, the index after a reorganisation equals the replay of the new chain |
| FreshIds.SetBestChainExact | src/main.cpp:1979-2056 | the same after SetBestChain |
| FreshIds.NoDoubleSpend | src/main.cpp:1598-1599 | along a chain with fresh ids no output is spent by two inputs |
| FreshIds.EveryFreshRun | src/main.cpp:1979-2056 | after any run in whose tree every chain that connects has fresh ids, the index equals the replay of the best chain, and each of its outputs is spent at most once |
| AcceptedIds.NoIdRepeated | src/main.cpp:1598-1599 | a block that repeats no coinbase repeats no transaction at all, because inputs are spent only once |
| AcceptedIds.AcceptedChainIsFresh | src/main.cpp:2398-2402 | if coinbases begin with their height and an id determines its transaction, no id occurs in two blocks of a chain that connects |
| AcceptedIds.EveryAcceptedRun | src/main.cpp:2398-2402 | so after any run over accepted blocks the index equals the replay of the best chain, and no output is spent twice |
| AcceptedIds.BranchDecides | src/main.cpp:1979-2056 | and a call of SetBestChain makes the new block the best one, in a consistent node, if and only if every block of its branch above the fork is accepted on top of those before it |
| SwitchConditions.ReusedIdsExactly | src/main.cpp:1418-1424 | from the full index, the end of a chain can be disconnected if and only if none of its blocks spends from an id that a later one has again |
| FreshIds.ReusedIdExample | src/main.cpp:1754-1761 | three blocks that ConnectBlock accepts and of which the second can then not be disconnected |
| ChainState.ChainState.DisconnectBranch | src/main.cpp:1889-1903 | disconnects the listed blocks in the open batch, or fails when one cannot be |
| ChainState.ChainState.ConnectIndexed | src/main.cpp:1714-1855 | connects a block in the open batch and records its supply |
| ChainState.ChainState.ConnectBranch | src/main.cpp:1905-1922 | connects the listed blocks until one is refused |
| ChainState.ChainState.Relink | src/main.cpp:1930-1938 | clears the forward links of the old branch, then sets those of the new one |
| ChainState.ChainState.FindBranches | src/main.cpp:1861-1884 | what is disconnected and connected are the parts of the two paths above their fork |
| ChainState.ChainState.Reorganize | src/main.cpp:1857-1951 | does what the specification of a reorganisation says, and commits only on success |
| ChainState.ChainState.SetBestChainInner | src/main.cpp:1955-1977 | extends the chain by one block in a transaction, or aborts it |
| ChainState.ChainState.ConnectPostponed | src/main.cpp:2026-2041 | connects postponed blocks, one transaction each, until one is refused |
| ChainState.ChainState.SwitchBranch | src/main.cpp:2000-2041 | reorganises to the pivot, aborts on failure, then connects the postponed blocks |
| ChainState.ChainState.SetBestChain | src/main.cpp:1979-2056 | matches the specification; from a valid state, the state is valid afterwards exactly if no postponed block was refused; on failure only recorded supplies may differ |
| ChainState.ChainState.AddToBlockIndex | src/main.cpp:2161-2223 | inserts a block and switches to it if its chain has more trust |
| ChainState.ChainState.FindBlockByHeight | src/main.cpp:983-998 | from genesis, the tip or the cached block, returns the unique main-chain block of the height |
| Checkpoints.CheckpointsAreFinal | src/checkpoints.cpp:138-178 | over every sequence of messages, whether or not postponed blocks are refused, the checkpoint only moves to descendants, every block added in between descends from the checkpoint, and the best chain runs through it |
| Checkpoints.ChainBelowCheckpointFixed | src/checkpoints.cpp:199-243 | so the best chain up to the checkpoint's height never changes again |
| Checkpoints.ReorganizeSparesCheckpoint | src/main.cpp:2380-2391 | no reorganisation between chains through the checkpoint disconnects it |
| Checkpoints.NoCallDisconnectsCheckpoint | src/checkpoints.cpp:199-243 | every call of SetBestChain made in any run starts and ends on chains through the checkpoint of its beginning, and disconnects neither that nor a later one |
| Checkpoints.OnlyCallsSwitch | src/checkpoints.cpp:199-243 | and a message that makes no such call changes nothing of the chain but the tree |
| CheckpointState.CheckpointState.ValidateSyncCheckpoint | src/checkpoints.cpp:138-178 | accepts exactly a proper descendant of the current checkpoint, and records a conflicting one |
| CheckpointState.CheckpointState.CheckSync | src/checkpoints.cpp:260-285 | passes exactly the blocks on top of the checkpoint, the checkpoint itself, and known blocks below it |
| CheckpointState.CheckpointState.ProcessSyncCheckpoint | src/checkpoints.cpp:445-496 | keeps an unknown checkpoint pending, refuses a conflicting one, else switches the chain and moves the checkpoint |
| CheckpointState.CheckpointState.AcceptPendingSyncCheckpoint | src/checkpoints.cpp:199-243 | the same for a pending checkpoint once its block is known |
| CheckpointState.CheckpointState.AcceptBlock | src/main.cpp:2345-2424 | a block enters the tree only if it passes the checkpoint, and then a pending checkpoint may become current |
| AddrTables.TouchKeeps | src/addrman.cpp:278-282 | times, services and attempts may change freely |
| AddrTables.SwapKeeps | src/addrman.cpp:105-123 | swapping two places of the random list keeps the invariant |
| AddrTables.RemoveKeeps | src/addrman.cpp:190-198 | taking an id out of a new bucket, and its entry out of every index with the last reference, keeps the invariant |
| AddrTables.InsertKeeps | src/addrman.cpp:360-366 | placing a counted reference in a bucket with room keeps it |
| AddrTables.CreateKeeps | src/addrman.cpp:93-103 | a new entry with one reference to come keeps it |
| AddrTables.MoveKeeps | src/addrman.cpp:207-228 | promotion to a tried bucket with room keeps it |
| AddrTables.ExchangeKeeps | src/addrman.cpp:230-258 | promotion in exchange for an evicted entry keeps it: there is always a new bucket with room |
| AddrTables.ShuffleKeeps | src/addrman.cpp:133-138 | the order inside a tried bucket is free |
| AddrMan.InspectPermutes | src/addrman.cpp:125-147 | SelectTried permutes the bucket and returns a position inside it |
| AddrMan.InspectMissesOldest | src/addrman.cpp:133-144 | the position returned is where the first oldest of the inspected entries was drawn from, which is the place of that entry if and only if the draw left it where it was |
| AddrMan.AddrMan.Find | src/addrman.cpp:80-91 | finds an entry exactly if some entry has the address |
| AddrMan.AddrMan.Create | src/addrman.cpp:93-103 | appends a fresh id to the indexes |
| AddrMan.AddrMan.SwapRandom | src/addrman.cpp:105-123 | swaps two places and their recorded positions |
| AddrMan.AddrMan.SelectTried | src/addrman.cpp:125-147 | changes only the order of one tried bucket |
| AddrMan.AddrMan.FindTerrible | src/addrman.cpp:154-172 | finds the first terrible entry of the bucket unless there is none |
| AddrMan.AddrMan.OldestSampled | src/addrman.cpp:174-187 | finds the first of the four sampled entries that was seen no later than the others |
| AddrMan.AddrMan.FindVictim | src/addrman.cpp:154-187 | the entry that has to go is the first terrible one, else the first oldest of those sampled |
| AddrMan.AddrMan.ShrinkNew | src/addrman.cpp:149-201 | removes exactly that entry, from every index with its last reference, and returns 0 exactly if it was terrible; no assert fails |
| AddrMan.AddrMan.MakeRoom | src/addrman.cpp:363-364 | does so if and only if the bucket is full, sparing the entry that is to enter |
| AddrMan.AddrMan.RemoveFromAllNew | src/addrman.cpp:207-213 | takes an id out of every new bucket, one reference each |
| AddrMan.AddrMan.MakeTried | src/addrman.cpp:203-259 | moves an entry to its tried bucket; a full bucket gives the entry selected back to its new bucket, or to the one just left if that is full |
| AddrMan.AddrMan.FindBucket | src/addrman.cpp:288-300 | the first bucket with the id in cyclic order from a random start, or none if no bucket has it |
| AddrMan.AddrMan.PromoteNew | src/addrman.cpp:288-309 | promotes out of the first bucket found that has the entry; the exit for an entry in no bucket is never taken |
| AddrMan.AddrMan.Good | src/addrman.cpp:261-310 | keeps the invariant, and refreshes and promotes exactly the entry of this service |
| AddrMan.HearingAgain | src/addrman.cpp:323-330 | hearing of a known address adds its services; the time only rises, by more than an hour unless it was unknown and never beyond the advertised time less the penalty; hearing the same again changes nothing |
| AddrMan.AddrMan.Wants | src/addrman.cpp:332-349 | when a known entry gains a reference: with n references with odds one in 2^n |
| AddrMan.AddrMan.Place | src/addrman.cpp:358-366 | puts an entry into a bucket it is not in, making room in a full one; the entry itself is never the one removed |
| AddrMan.AddrMan.Add | src/addrman.cpp:312-368 | keeps the invariant; reports new exactly for routable unknown addresses, which are known afterwards |
| AddrMan.AddrMan.Attempt | src/addrman.cpp:370-387 | records an attempt on exactly this service |
| AddrMan.AddrMan.Connected | src/addrman.cpp:509-527 | refreshes the time at most every twenty minutes |
| AddrMan.AddrMan.GetAddr | src/addrman.cpp:493-507 | returns 23 percent of the addresses, at most 2500, each once and as its entry says, changing only the random order |
| AddrMan.AddrMan.Check | src/addrman.cpp:434-490 | returns 0 exactly if every tested condition holds |
| AddrMan.AddrMan.CheckValid | src/addrman.cpp:434-490 | returns 0 and changes nothing in every valid state |
| AddrCheck.ConsistentPasses | src/addrman.cpp:434-490 | the invariant kept by every operation implies all tested conditions |
| AddrCheck.CheckEntries | src/addrman.cpp:441-460 | the loop over the entries passes exactly if each entry passes, and collects the tried ids and the reference counts |
| AddrCheck.CheckTriedBuckets | src/addrman.cpp:465-473 | passes exactly if the tried buckets together list the tried ids, each once |
| AddrCheck.CheckNewBuckets | src/addrman.cpp:475-484 | passes exactly if every id is in as many new buckets as its count says |
| AddrFile.Save | src/addrman.h:279-317 | writes the new and the tried records, and each new bucket as indexes of the new records |
| AddrFile.LoadTriedRecords | src/addrman.h:342-360 | rebuilds the tried buckets, counting records that find their bucket full as lost |
| AddrFile.Load | src/addrman.h:318-378 | rebuilds all indexes from any file, whatever its number of buckets and its indexes |
| AddrFile.RehashedOnce | src/addrman.h:327-338 | when the number of buckets has changed, every new record is in exactly one bucket, the one for its source, and counted once |
| AddrRoundTrip.RenumberedIsConsistent | src/addrman.h:262-263 | tables that are the same up to ids, order and the time of the last try are consistent too |
| AddrRoundTrip.LoadedTriedIs | src/addrman.h:342-360 | no tried record of a saved file is lost |
| AddrRoundTrip.LoadedIsSame | src/addrman.h:248-380 | loading a saved file gives consistent tables with the same key, counters, records and bucket members |
| AddrRoundTrip.SaveAndLoad | src/addrman.h:248-380 | so does saving one manager and loading another from it |
| Framing.LittleEndianRoundTrip | src/net.h:380-389 | a 32-bit field is read back as written |
| Framing.PaddedRoundTrip | src/protocol.cpp:30-44 | a valid command survives the padded field, cut off after twelve characters |
| Framing.MovingStepExtends | src/main.cpp:3854-3908 | an iteration that consumed something would have done the same with more bytes behind |
| Framing.StoppedStepExtends | src/main.cpp:3854-3893 | erasing all but the last 24 bytes, or rewinding, makes no difference to what follows |
| Framing.ParseInChunks | src/main.cpp:3831-3950 | parsing a prefix and then what it left with the rest is parsing everything, for any bytes |
| Framing.ParseLeavesNothing | src/main.cpp:3831-3950 | what is left delivers nothing by itself |
| Framing.ParseResumes | src/main.cpp:3850-3852 | stopping when the send buffer is full loses nothing |
| Framing.ParseSomeIsAll | src/main.cpp:3848-3908 | more iterations than headers fit in the buffer parse all of it |
| Framing.AnySchedule | src/main.cpp:3831-3950 | however a stream is cut up and the loop interrupted, the messages dispatched and those still in the buffer are those of the whole stream |
| Framing.AllDispatched | src/main.cpp:3831-3950 | and once the loop has run for that many iterations, exactly those messages have been dispatched |
| Framing.FrameStep | src/main.cpp:3870-3908 | a frame is dispatched as its message and consumed exactly |
| Framing.FramesRoundTrip | src/main.cpp:3831-3950 | frames are dispatched as exactly the messages they were made of, in order |
| Framing.Resynchronises | src/main.cpp:3854-3868 | garbage without a message start in front of frames is skipped |
| Framing.SentIsReceived | src/main.cpp:3831-3950 | whatever was sent, however it arrives, is received once and in order: dispatched or still in the buffer at any time, and all dispatched after such a run of the loop |
| Node.SendBuffer.BeginMessage | src/net.h:343-353 | starts a message behind the finished ones, dropping one that was being built |
| Node.SendBuffer.AbortMessage | src/net.h:355-366 | drops the message being built and nothing else |
| Node.SendBuffer.EndMessage | src/net.h:368-398 | patches size and checksum, so that what was being built becomes a frame |
| Node.SendBuffer.EndMessageAbortIfEmpty | src/net.h:400-409 | the same, dropping an empty message |
| Node.SendAll | src/net.h:343-398 | the buffer after sending some messages is the concatenation of their frames |
| Node.ReceiveBuffer.CommandIsValid | src/protocol.cpp:46-64 | accepts printable characters followed only by zeros |
| Node.ReceiveBuffer.ReadMessage | src/main.cpp:3870-3908 | takes a header and its message, skips the header, or rewinds and waits |
| Node.ReceiveBuffer.ProcessOne | src/main.cpp:3848-3908 | one iteration of the loop is one step of the parser |
| Node.ReceiveBuffer.ProcessMessages | src/main.cpp:3831-3950 | dispatches what the parser delivers before the send buffer is found full, and keeps the rest |
| BlockAssembly.MakeLimits | src/main.cpp:4243-4256 | the options are clamped so that the priority and minimum sizes never exceed the maximum, which leaves room in a block |
| BlockAssembly.ChosenNext | src/main.cpp:4374-4431 | including an allowed candidate keeps all accounts, limits and the order |
| BlockAssembly.InputsSpent | src/main.cpp:4421-4424 | if the ids of the chosen list are absent or fully spent in the index, every input of the list is marked spent at its end |
| BlockAssembly.NoOutpointTwice | src/main.cpp:4421-4424 | and then no outpoint is an input of two chosen transactions, or twice of one |
| BlockAssembly.AssembledConnects | src/main.cpp:4279-4456 | the chosen list connects behind a coinbase at block positions as it did at pool positions |
| BlockAssembly.ChosenBlockConnects | src/main.cpp:4279-4456 | a coinbase and a chosen list pass the checks and connect, with the same fees |
| Miner.ScanInputs | src/main.cpp:4292-4333 | finds the in-pool parents, links the transaction under each, and sums input values and priority |
| Miner.Consider | src/main.cpp:4286-4352 | puts a transaction into the queue or the waiting list with its priority and fee rate |
| Miner.Tell | src/main.cpp:4443-4454 | a waiting transaction joins the queue exactly with its last parent, and only once however often it is told |
| Miner.Release | src/main.cpp:4439-4455 | after an inclusion every waiting transaction depends on exactly its parents not yet included |
| Miner.PopBest | src/main.cpp:4364-4372 | takes an element that none in the queue exceeds |
| Miner.WithinLimits | src/main.cpp:4374-4403 | passes exactly the candidates within the size, signature, time and free-transaction limits, and turns to the fee order exactly past the priority size or priority |
| Miner.TryConnect | src/main.cpp:4405-4424 | succeeds exactly if the fee reaches the minimum, the signature operations fit and the inputs connect in the test pool |
| Miner.TryInclude | src/main.cpp:4374-4431 | one turn: includes the candidate exactly if both allow it, and keeps all accounts and limits |
| Miner.QueueHoldsAvailable | src/main.cpp:4364-4455 | the queue holds exactly the transactions not considered so far whose parents are in the block |
| Miner.GreatestIsBest | src/main.cpp:4366-4372 | so a greatest element of the queue is a best choice among those |
| Miner.FilledFromPicks | src/main.cpp:4364-4456 | no transaction is considered twice, and only considered ones are included |
| Miner.CreateNewBlock | src/main.cpp:4279-4456 | the block is what considering a best available transaction, over and over until there is none, gives; its list is accounted for, within limits, without repetition and parents first |
| Miner.GreedySpendsOnce | src/main.cpp:4421-4424 | if no pool transaction repeats the id of one in the chain with unspent outputs, no outpoint is spent twice in the block |
| Merkle.NodeShift | src/main.h:1018-1035 | the tree over the parents is the tree without its leaves |
| Merkle.FlatHoldsNodes | src/main.h:1018-1035 | the flat array holds every node of the duplicate-last tree where its level starts |
| Merkle.FlatSize | src/main.h:1018-1035 | and nothing else |
| Merkle.BranchVerifies | src/main.h:1037-1066 | every leaf with its branch verifies to the root, and a branch is as long as the tree is deep |
| Merkle.OnlyBranchVerifies | src/main.h:1053-1066 | if pairs hash injectively, at index i only leaf i with its own branch verifies |
| Merkle.Block.BuildMerkleTree | src/main.h:1018-1035 | fills the flat array and returns the root, 0 for no transactions |
| Merkle.Block.GetMerkleBranch | src/main.h:1037-1051 | returns the siblings on the way to the root |
| Merkle.CheckMerkleBranch | src/main.h:1053-1066 | hashes upwards along the branch, for any index; -1 gives 0 |
| Merkle.ProveTransaction | src/main.h:1018-1066 | the three together: root, branch and check agree for every transaction of a block |
| MedianTime.MedianUnique | src/main.h:1310-1324 | a window has only one median |
| MedianTime.GetMedianTimePast | src/main.h:1310-1324 | returns the median of the last eleven block times, or of fewer near genesis |
| MedianTime.MedianNotLowered | src/main.cpp:2366-2369 | a block later than the median does not lower it |
| MedianTime.MedianNeverDecreases | src/main.cpp:2366-2369 | along any accepted chain the median never decreases |
| Locator.LocatorIsShort | src/main.h:1561-1576 | the length of a locator is logarithmic in the height |
| Locator.BlockLocator.Set | src/main.h:1561-1576 | entries sit at depths 0 to 11, then 9 + 2^k, then genesis |
| Locator.BlockLocator.GetBlockIndex | src/main.h:1599-1613 | returns the first entry in the receiver's main chain, or genesis |
| Locator.BlockLocator.GetDistanceBack | src/main.h:1578-1597 | retraces the depth of that entry by its index |
| Locator.SharedIsPrefix | src/main.h:1599-1613 | the receiver shares exactly the sender's blocks up to the fork |
| Locator.FindsSharedBlock | src/main.h:1599-1613 | with the fork d blocks down, the block found is at depth d if d is at most 11, else below 2d |
| Locator.DistanceIsDepth | src/main.h:1578-1597 | the distance is that depth unless only the trailing genesis matched, when it is too large |
| Locator.LocateFork | src/main.h:1561-1613 | sender and receiver together |
| StakeModifier.GetStakeModifierSelectionInterval | src/kernel.cpp:55-61 | the interval is the sum of its 64 sections |
| StakeModifier.SelectBlockFromCandidates | src/kernel.cpp:66-110 | fails only if all candidates were selected, else picks the least rank up to the stop time, or the earliest left |
| StakeModifier.GetLastStakeModifier | src/kernel.cpp:34-45 | the last generated modifier on the chain |
| StakeModifier.PicksDiffer | src/kernel.cpp:165-175 | no block is picked twice |
| StakeModifier.SomeLeft | src/kernel.cpp:165-171 | with fewer picks than candidates one is left, so no round fails |
| StakeModifier.SelectBlocks | src/kernel.cpp:161-179 | picks min(64, candidates) blocks by the rule of each round, and sets bit r to the entropy bit of pick r |
| StakeModifier.ComputeNextStakeModifier | src/kernel.cpp:125-211 | keeps the modifier within an interval, else selects from the stretch before it; fails only without any generated modifier |
| BigNum.MpiRoundTrip | src/bignum.h:254-279 | numbers survive the sign-and-magnitude format, in its shortest form |
| BigNum.MpiUnique | src/bignum.h:254-279 | so do shortest strings |
| BigNum.VchRoundTrip | src/bignum.h:254-279 | setvch undoes getvch |
| Compact.CompactRoundsDown | src/bignum.h:281-304 | decoding an encoded target rounds down with relative error below 2^-15, and stays positive |
| Compact.CompactIdempotent | src/bignum.h:281-304 | encoding again changes nothing |
| Compact.CompactMonotone | src/bignum.h:293-304 | larger targets have larger compact forms |
| Compact.CompactSame | src/bignum.h:293-304 | two numbers have the same compact form if and only if they agree in the bytes it keeps |
| Retarget.NextTargetInRange | src/main.cpp:1195-1207 | every result decodes to a positive target within the limit |
| Retarget.NextBitsCanonical | src/main.cpp:1203-1207 | and is canonical |
| Retarget.NominalSpacingKeepsBits | src/main.cpp:1195-1207 | at nominal spacing a canonical target in range does not change |
| Retarget.SpacingOrder | src/main.cpp:1185-1207 | for all spacings a <= b, when exactly the result does not fall from a to b: always for targets above 1, except from a negative spacing to none when the compact form tells zero and one second apart; for target 1 unless only b reaches the nominal spacing |
| Retarget.GetLastBlockIndex | src/main.cpp:1166-1171 | the last block of a kind, or genesis |
| Retarget.GetNextTargetRequiredPoSPV2 | src/main.cpp:1173-1207 | the limit near genesis, else the last stake target moved by the spacing of the last two stake blocks; always in range |
| Base58.DecodeEncode | src/base58.h:27-119 | decoding the encoding of any byte vector gives it back |
| Base58.EncodeDecode | src/base58.h:27-119 | encoding the decoding of any base58 string gives it back |
| Base58.ParsedDigits | src/base58.h:75-119 | a base58 string without white space is accepted as it is |
| Base58.EncodeBase58 | src/base58.h:27-64 | computes the encoding |
| Base58.DecodeBase58 | src/base58.h:75-119 | accepts exactly digits with white space around them, and decodes them |
| Base58.DecodeBase58Check | src/base58.h:141-160 | accepts exactly the text of a vector followed by its checksum |
| Base58.RoundTripCheck | src/base58.h:131-160 | what was encoded with a checksum is decoded again |
| LockedPages.LockedPageManager.LockRange | src/allocators.h:55-76 | adds a range; every page counts the outstanding ranges on it |
| LockedPages.LockedPageManager.UnlockRange | src/allocators.h:78-99 | removes an outstanding range; the assertion that its pages are counted never fails |
| LockedPages.LockedPageManager.LockedIffTouched | src/allocators.h:55-99 | a page is locked exactly while an outstanding range touches it |

## Left out

- Disk and database failures: a read returns what was written, a commit succeeds. A position in the index carries the transaction found there, and the pool position (1,1,1) the pooled one.
- Signatures, scripts, coinbase maturity, signature-operation counts, minimum fees and the legacy reward by coin age enter as a verdict per block, or as functions of a transaction in the block template.
- The on-disk block index, wallets, the memory pool after a reorganisation, and `nMint`.
- Block index objects are named by their hash and forward pointers are a map, so pointer aliasing is not modelled.
- ChainLaws.EveryRun: runs in which a postponed block is refused are excluded, because the code then leaves the node inconsistent; `SetBestChainExactly` gives the exact condition.
- AcceptedIds.EveryAcceptedRun: input scripts are no part of a transaction here, so that a coinbase begins with its height, that no transaction is without inputs, and that ids do not collide are a predicate on the tree; without it `EveryRun` states equality of unspent outputs.
- Testnet, `-nosynccheckpoints`, `ResetSyncCheckpoint`, hard-coded checkpoints and automatic checkpoint selection.
- Choosing a peer at random (`Select_`, `GetChance`) and the cryptographic bucket hashes, which are arbitrary functions of the key and the address.
- AddrMan.AddrMan.GetAddr: that the sample is uniform is not stated; random numbers are inputs.
- Message handlers: a handler does not disconnect the peer; the point at which the send buffer is found full is an input.
- Miner.CreateNewBlock: priorities are exact reals instead of doubles, the heap is a list from which a greatest element is taken, and pool transactions with missing inputs are excluded, since the code then keeps pointers to a removed list element. The coinstake, the block header and the comparison with its timestamp are not modelled.
- StakeModifier.ComputeNextStakeModifier: the 64-bit word is a sequence of bits; debug output and modifier checkpoints are left out.
- LockedPages.LockedPageManager.LockRange: pages are numbered instead of addressed, and ranges do not reach the last page of the address space, where the loop variable would wrap around.
- Base58.DecodeBase58: text is a sequence of characters without a terminating zero.
- Sockets, threads, RPC, wallet and user interface.
