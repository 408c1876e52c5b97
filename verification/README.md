# Verified model of the Boker chain core

The repository is a fork of go-ethereum with delegated proof of stake. This project models the
parts of it that keep redundant state in agreement while branching, looping or running
concurrently, and proves what they are for. The files, by component:

- **Binary Merkle tree hasher** (`Bmt*.dfy`). `BmtReference` is the recursive reference hasher.
  `BmtMachine` is the concurrent hasher as a step system: the caller, one goroutine per segment
  pair, nodes with an atomic toggle, in any interleaving. `BmtInvariant` and `BmtSteps` carry the
  invariant over every step, `BmtValues` ties node values to the reference, `BmtCorrect` concludes
  safety, progress and termination, and `BmtHasher` adds `Write`, `NewTree` and reuse of a tree.
- **Transaction pool** (`BinaryHeap`, `Tx*.dfy`). `TxSortedMap` and `TxList` are the per-account
  lists with heap index and sort cache, proved against the values of `TxModel`. `TxPriced` is the
  lazily cleaned price heap. `TxPoolState` says what the pool's books have to agree on, `TxPool`
  is the pool itself, `TxLevel` the fairness cut of the pending limit, `TxCull` the queue limit,
  `TxPoolProofs` the facts in between. `TxRun` specifies the run of a batch, `TxReset` says which
  accounts are in step after a reset, `TxBack` which of those whose nonce went back, and `TxGap`
  shows two that are not.
- **Canonical chain** (`ChainModel`, `HeaderChain`, `TxIndex`, `BlockChain`). Fork choice by total
  difficulty, canonical renumbering, reorganisation and the transaction lookup index.
- **Section indexer** (`ChainIndexer`, `IndexerRace`). A protocol of statements taken with and
  without the lock, the code that takes them, and where their interleavings go wrong.
- **Light client and events** (`RandSelect`, `PeerScan`, `Distributor`, `Feed`). The weighted
  selection tree, the request distributor with its single wake-up signal, and the event feed.
- **Gas and paths** (`Gas`, `HdPath`). Gas accounting of ordinary transactions over a block, and
  the printer and parser of derivation paths.

Objects that the source updates in place are classes whose methods state their new state in terms
of the old one. Hash functions, the virtual machine, clocks, coin tosses, peers and the readiness
of channels are parameters or open choices. Headers, blocks and transactions are values identified
with their hashes.

Some properties hold only under a condition that the code does not check. Each is stated with the
exact condition and an instance where it fails:

- The toggle of a tree node works only while its 32-bit counter has not wrapped
  (`BmtHasher.TogglePairWorks`, `BmtHasher.WrappedToggleSendsStale`, `BmtHasher.BreaksAfterWrap`).
- With an odd number of segments, several writes can pass the capacity, and the next one crashes
  (`BmtHasher.CutAtCapacityIff`, `BmtHasher.OddCountOverruns`).
- Removing the lowest pending transaction of an account leaves those behind it known but in no
  list, and removing one whose slot a rival has taken does the same to the rival
  (`TxPoolProofs.NoOrphansIff`, `TxPoolProofs.OrphanExample`, `TxPoolProofs.RivalOrphaned`).
- The gap check of demotion looks only at the first nonce, so a reset to a lower chain nonce that
  reinjects transactions can leave a gap (`TxPoolProofs.StayingRuns`, `TxPoolProofs.ResetSeamless`,
  `TxBack.BackIff`, `TxGap.GapAfterReset`).
- While transactions are reinjected the tracked nonces are empty, so an eviction or cut that takes
  a pending nonce the chain has passed leaves the account's tracked nonce below the chain's
  (`TxReset.ResetIff`, `TxGap.EvictedBelowChain`).
- Rewinding the header chain can orphan stored side branches (`HeaderChain.RewoundLinkedIff`,
  `HeaderChain.RewindOrphans`).
- A block that becomes head with a lower number leaves stale canonical numbers above it
  (`BlockChain.ExactNumbersIff`, `BlockChain.StaleNumber`).
- A reorganisation inserts the new branch highest block first, and its comment says that the order
  does not matter; but the head header and the fast-sync head are left at the lowest block of the
  branch (`BlockChain.HeaderLagsIff`, `BlockChain.HeaderLags`).
- A failed backend reset rolls the index back without the lock and can race with a reorganisation
  notice (`IndexerRace.CalmIff`, `IndexerRace.BothToZero`, `IndexerRace.CountWithoutHead`).

`dafny verify dfyconfig.toml` checks the whole project.

## Model

| member | source | states |
|---|---|---|
| `BmtReference.NewRefHasher` | chain/bmt/bmt_r.go:39-55 | the span is a power-of-two number of segments, one doubling reaches the capacity, and it lies below the capacity unless it is the least span |
| `BmtReference.ComputeRefHash` | chain/bmt/bmt_r.go:67-85 | the span-halving loop and its two recursive calls compute the recursive reference hash; a chunk of at most two segments gives its base hash |
| `BmtReference.SpanIrrelevant` | chain/bmt/bmt_r.go:67-85 | the reference hash of a chunk does not depend on the span it starts from, as long as the span reaches |
| `BmtReference.TreeHashSplits` | chain/bmt/bmt_r.go:67-85 | a long chunk hashes to the hash of its full left half followed by its right rest, hashed if longer than a segment |
| `BmtReference.TreeHashJoins` | chain/bmt/bmt_r.go:67-85 | conversely, a full half and a shorter rest hashed together give the hash of their concatenation |
| `BmtReference.TreeHashUnique` | chain/bmt/bmt_r.go:67-85 | any function that gives short data its base hash and splits longer data as the reference does is the reference hash |
| `BmtReference.TreeHashIsOne` | chain/bmt/bmt_r.go:67-85 | the reference hash meets both equations |
| `BmtReference.TreeHashIsSum` | chain/bmt/bmt_r.go:67-85 | the hash of any chunk is a value of the base hash |
| `BmtReference.Hash` | chain/bmt/bmt_r.go:59-65 | the chunk is cut at the capacity and its tree hash returned, for every segment count; always a value of the base hash, and the base hash of the chunk itself if it has at most two segments |
| `BmtValues.FullIsReference` | chain/bmt/bmt.go:463-494 | a subtree whose leaves all carry full pieces sends up the reference hash of its data |
| `BmtValues.PathIsReference` | chain/bmt/bmt.go:463-494 | the zigzag path of the final piece sends up the reference hash of the data below it, or that data itself if it is a single segment |
| `BmtValues.RootValueIsReference` | chain/bmt/bmt.go:463-494 | what leaves the session root is the reference hash of the whole chunk |
| `BmtSteps.StoreKeeps` | chain/bmt/bmt.go:463-470 | storing a child value at a node keeps the session invariant |
| `BmtSteps.ToggleKeeps` | chain/bmt/bmt.go:471-473 | the toggle lets exactly one of the two arrivals at a node go on, and only once both children are in place |
| `BmtSteps.PassKeeps` | chain/bmt/bmt.go:474-482 | an unbalanced node passes its left value on without waiting, and that value is right |
| `BmtSteps.CombineKeeps` | chain/bmt/bmt.go:474-480 | hashing the two children yields the value the plan assigns to the node |
| `BmtSteps.LeaveKeeps` | chain/bmt/bmt.go:484-492 | leaving a node for its parent, or for the result channel at the root, keeps the invariant |
| `BmtSteps.HashKeeps` | chain/bmt/bmt.go:446-459 | hashing a double segment before entering the tree keeps the invariant |
| `BmtCorrect.FinaliseKeeps` | chain/bmt/bmt.go:530-547 | finalise marks the final path node by node, interleaved with the goroutines, and keeps the invariant |
| `BmtCorrect.OneSender` | chain/bmt/bmt.go:485-488 | at most one goroutine is ever sending or has sent |
| `BmtCorrect.ReceiveReleases` | chain/bmt/bmt.go:293-319 | when Sum receives a value, every other goroutine has returned, so releasing the tree races with none |
| `BmtCorrect.ReleaseKeeps` | chain/bmt/bmt.go:425-440 | releaseTree clears the flags of the final path and nothing else |
| `BmtCorrect.GoodStep` | chain/bmt/bmt.go:442-494 | every step of the caller or of a goroutine succeeds and leads from a good state to a good state |
| `BmtCorrect.EveryRunIsSound` | chain/bmt/bmt.go:293-494 | in every interleaving no step crashes and every state is sound: one sender, the reference hash, a clean hand-back |
| `BmtCorrect.Progress` | chain/bmt/bmt.go:293-494 | no interleaving deadlocks: until Sum has returned, some step is enabled |
| `BmtCorrect.EveryRunEnds` | chain/bmt/bmt.go:293-494 | no schedule is longer than a bound known at its start |
| `BmtCorrect.HashesOneChunk` | chain/bmt/bmt.go:293-494 | from a clean tree every schedule is safe, bounded and can be continued until the reference hash has been received |
| `BmtHasher.Hasher.constructor` | chain/bmt/bmt.go:90-105 | a new hasher holds no data |
| `BmtHasher.Hasher.RoomFromCursor` | chain/bmt/bmt.go:334-345 | the number of bytes up to the capacity, counted from the open piece |
| `BmtHasher.Hasher.Write` | chain/bmt/bmt.go:334-373 | the data written so far, cut at the stated limit, stands in the launched pieces and the open one, in order; a further write crashes if and only if the data held has passed the capacity |
| `BmtHasher.CutAtCapacityIff` | chain/bmt/bmt.go:342-355 | a write is cut at the capacity if and only if the segment count is even, no piece or the last piece was open, or nothing passes the capacity |
| `BmtHasher.OddCountOverruns` | chain/bmt/bmt.go:342-355 | an instance: with three segments of one byte, a second write fills four |
| `BmtHasher.Cut` | chain/bmt/bmt.go:346-370 | the copying loop fills the open piece and launches each piece that more data follows |
| `BmtHasher.Depth` | chain/bmt/bmt.go:521-527 | the least depth whose leaves hold the segments |
| `BmtHasher.NewTree` | chain/bmt/bmt.go:253-278 | the nodes are exactly the positions of the complete tree, fresh, with only the top marked root |
| `BmtHasher.ConcurrentEqualsReference` | chain/bmt/bmt.go:293-373 | for every segment count, chunk and interleaving, what Sum receives is what RefHasher.Hash returns, always a value of the base hash, and of a chunk of at most two segments its own; no schedule gets stuck, and a finished session hands back a clean tree |
| `BmtHasher.ManyChunks` | chain/bmt/bmt.go:425-440 | up to 2^30 chunks hashed one after another on the same tree all come out right, each in any interleaving |
| `BmtHasher.TogglePairWorks` | chain/bmt/bmt.go:509-511 | on an even 32-bit counter the first arrival waits and the second goes on if and only if the counter is not negative |
| `BmtHasher.RootCounter` | chain/bmt/bmt.go:509-511 | sessions with the same root toggle it twice each: after k of them its counter is 2k, and the 2^30-th brings it to -2^31 |
| `BmtHasher.WrappedToggleSendsStale` | chain/bmt/bmt.go:509-511 | with any negative even counter at the session root of a chunk of two pieces, in a tree of any depth, some schedule sends a hash over an empty half before the other goroutine has started |
| `BmtHasher.BreaksAfterWrap` | chain/bmt/bmt.go:425-440 | so the chunk after 2^30 chunks of two pieces on one tree can come out wrong |
| `BinaryHeap.Push` | chain/core/tx_list.go:34-49 | the new element is in, nothing is lost, and the heap order holds |
| `BinaryHeap.Pop` | chain/core/tx_list.go:34-49 | the least element is taken out, the rest stays a heap |
| `BinaryHeap.Remove` | chain/core/tx_list.go:34-49 | the element at any position is taken out, the rest stays a heap |
| `BinaryHeap.Init` | chain/core/tx_list.go:34-49 | any list is rearranged into a heap of the same elements |
| `BinaryHeap.HeapTop` | chain/core/tx_list.go:34-49 | the first element of a heap is least |
| `TxSortedMap.SortedMap.constructor` | chain/core/tx_list.go:59-64 | an empty map with an empty index |
| `TxSortedMap.SortedMap.Put` | chain/core/tx_list.go:73-83 | the transaction is stored under its nonce; the index stays a heap of exactly the stored nonces |
| `TxSortedMap.SortedMap.Forward` | chain/core/tx_list.go:87-101 | exactly the nonces below the threshold leave, in order; a cache that is only sliced is still the sorted contents |
| `TxSortedMap.SortedMap.Filter` | chain/core/tx_list.go:105-126 | exactly the selected transactions leave; heap and cache are rebuilt only then |
| `TxSortedMap.SortedMap.Cap` | chain/core/tx_list.go:130-151 | the lowest nonces stay, the others are returned from the highest down; a cache that is only sliced is still the sorted contents |
| `TxSortedMap.SortedMap.Remove` | chain/core/tx_list.go:155-174 | the nonce is gone from map and heap, and the answer tells whether it was there |
| `TxSortedMap.SortedMap.Ready` | chain/core/tx_list.go:181-203 | exactly the maximal run of consecutive nonces from the lowest leaves, if it starts no later than asked |
| `TxSortedMap.SortedMap.Flatten` | chain/core/tx_list.go:232-246 | the contents sorted by nonce, cached |
| `TxModel.FlatUnique` | chain/core/tx_list.go:232-246 | the nonce-sorted listing of a map is unique, so any correct cache is the listing |
| `TxModel.CapFacts` | chain/core/tx_list.go:130-151 | the kept part has the requested size, lies wholly below the dropped part, and the two make up the whole |
| `TxList.AccountList.constructor` | chain/core/tx_list.go:261-267 | an empty list with zero caps |
| `TxList.AccountList.Add` | chain/core/tx_list.go:280-306 | accepted exactly under the price-bump rule; caps are raised; the replaced transaction is returned |
| `TxList.AccountList.Forward` | chain/core/tx_list.go:311-313 | as on the sorted map |
| `TxList.AccountList.Filter` | chain/core/tx_list.go:324-348 | the short circuit and the two-stage filtering drop and invalidate exactly what a full scan does |
| `TxList.AccountList.Cap` | chain/core/tx_list.go:352-354 | as on the sorted map |
| `TxList.AccountList.Remove` | chain/core/tx_list.go:359-372 | the nonce leaves; a strict list also gives up everything behind it |
| `TxList.AccountList.Ready` | chain/core/tx_list.go:379-381 | as on the sorted map |
| `TxModel.FilterIsFullScan` | chain/core/tx_list.go:324-348 | since the caps bound every transaction, the short circuit keeps what a full scan keeps |
| `TxModel.FilterPartitions` | chain/core/tx_list.go:324-348 | dropped, invalidated and kept transactions partition the list |
| `TxModel.FilterKeepsGapFree` | chain/core/tx_list.go:324-348 | strict filtering cuts a gap-free list to one of its prefixes |
| `TxPriced.PricedList.Put` | chain/core/tx_list.go:447-449 | one more entry in the heap |
| `TxPriced.PricedList.Removed` | chain/core/tx_list.go:454-468 | the heap is rebuilt from the live set when a quarter is stale, and covers it before and after |
| `TxPriced.PricedList.Cap` | chain/core/tx_list.go:472-499 | exactly the live remote transactions below the threshold are taken out |
| `TxPriced.PricedList.Underpriced` | chain/core/tx_list.go:503-525 | true if and only if the sender is remote and no live transaction is cheaper, as a linear scan would answer |
| `TxPriced.PricedList.Discard` | chain/core/tx_list.go:529-552 | only live remote transactions go, none dearer than a remote one that stays, and fewer than asked only if no remote one stays |
| `TxPool.Pool.constructor` | chain/core/tx_pool.go:178-222 | an empty pool with the given price floor and no local accounts is in order, in step with the chain and within its size |
| `TxPool.Pool.EnqueueTx` | chain/core/tx_pool.go:747-774 | the transaction is queued under the price-bump rule; the books stay in order |
| `TxPool.Pool.PromoteTx` | chain/core/tx_pool.go:789-826 | an unlisted transaction, known or not, becomes pending under the price-bump rule and the tracked nonce follows it; the books stay in order |
| `TxPool.Pool.RemoveTx` | chain/core/tx_pool.go:949-993 | the transaction is forgotten; a pending list is cut there and what stood behind goes back to the queue unless the list became empty |
| `TxPool.Pool.Add` | chain/core/tx_pool.go:647-744 | the whole step: known and invalid transactions change nothing; a full pool refuses exactly the underpriced ones; otherwise heap entries of remote transactions, of which a transaction may have two, are dropped until the excess is met or no remote transaction is left, none dearer than a remote one that stays, and their transactions removed one by one; then, under the price-bump rule, the transaction replaces its rival or joins the queue and its sender becomes local if asked, or it is refused and nothing else changes; the books stay in order and in step, and the pool within its size; whatever is pooled is not below the chain nonce, and if ordinary within size and gas, covered by the balance, and at or above the floor unless local; a replaced rival is outbid by the price bump; a valid new transaction with a free nonce is pooled if there is room |
| `TxRun.FaultsIff` | chain/core/tx_pool.go:549-643 | exactly the transactions that meet every check are valid, and an error names a check that fails |
| `TxModel.AcceptsIff` | chain/core/tx_list.go:280-306 | the price-bump rule: more than the present price, and at least the bump in percent more, rounded down |
| `TxPoolProofs.RivalOutbid` | chain/core/tx_pool.go:690-742 | a rival that is replaced was known and is outbid by the price bump |
| `TxPool.Pool.File` | chain/core/tx_pool.go:690-742 | exactly under the price-bump rule the transaction takes the place of its pending rival, or joins the queue; nothing else changes |
| `TxPool.Pool.MakeRoom` | chain/core/tx_pool.go:671-688 | exactly the underpriced are refused, and then nothing is removed; otherwise only remote transactions leave, none dearer than a remote one that stays, for at most as many heap entries as the pool is above one below its limit, and fewer only if no remote one stays |
| `TxRun.AddBounded` | chain/core/tx_pool.go:671-744 | adding a transaction, whatever is evicted for it, leaves at most as many known transactions as the two limits allow together, or at most one remote one, if that held before |
| `TxRun.EvictionMakesRoom` | chain/core/tx_pool.go:671-688 | although heap entries and not transactions are counted, eviction leaves the pool below its limit or without remote transactions |
| `TxRun.BatchBounded` | chain/core/tx_pool.go:887-917 | a whole batch keeps the pool within that size |
| `TxPool.Pool.SetGasPrice` | chain/core/tx_pool.go:446-455 | exactly the remote transactions below the new floor leave, each by a removal |
| `TxPool.Pool.PromoteAccount` | chain/core/tx_pool.go:1009-1062 | what the chain state still allows and runs on from the tracked nonce becomes pending, the tracked nonce moves to its end, the rest is queued up to the limit; nothing collides; the books stay in step; nothing the account could execute next is left queued; its heartbeat is now if anything was promoted, and no other changes |
| `TxPoolProofs.PromotionIff` | chain/core/tx_pool.go:1009-1062 | what becomes of a queued transaction: too old or too dear it is dropped, ready it becomes pending, else it stays queued, of a remote account only among the lowest nonces it is granted |
| `TxPoolProofs.RunIff` | chain/core/tx_list.go:181-203 | what is ready: if some nonce is no later than the start, exactly those with no gap below them; the next nonce follows the last of them |
| `TxPool.Pool.DemoteUnexecutables` | chain/core/tx_pool.go:1203-1247 | for every account the affordable prefix from the chain nonce stays, everything else affordable goes back to the queue, exactly the rest is forgotten, and no empty list remains; the heartbeats end of exactly the accounts whose pending lists it empties |
| `TxPoolProofs.DemotionIff` | chain/core/tx_pool.go:1203-1247 | what becomes of a pending transaction: it stays exactly if the chain nonce is pending and all from there up to it are affordable, goes back to the queue if it is affordable and not below the chain nonce, else it is dropped |
| `TxPool.Pool.DropLast` | chain/core/tx_pool.go:1110-1124 | the highest pending nonce leaves and the tracked nonce falls back to it if it stood higher |
| `TxPool.Pool.CutRound` | chain/core/tx_pool.go:1108-1126 | one round takes one transaction from every offender, from one common level to the next |
| `TxPool.Pool.CutTo` | chain/core/tx_pool.go:1102-1127 | rounds go on until the pool is small enough or the floor is reached, and the level reached is tight |
| `TxPool.Pool.Equalize` | chain/core/tx_pool.go:1070-1153 | picking the largest remote accounts one by one and cutting the earlier ones back ends at one common level |
| `TxPool.Pool.LimitPending` | chain/core/tx_pool.go:1063-1155 | remote lists are cut, highest nonces first, to the highest common level that meets the global limit, but to no lower level than the account allowance; local lists are untouched; each tracked nonce goes back to the lowest nonce cut, if it stood higher; exactly what is cut is forgotten; the books stay in step |
| `TxLevel.CutNoLowerThanNeeded` | chain/core/tx_pool.go:1063-1155 | the accounts cut are exactly the remote ones above the level, and with k of them cut at least GlobalSlots + 1 - k transactions are left |
| `TxLevel.LevelledUnique` | chain/core/tx_pool.go:1063-1155 | the outcome of the pending limit does not depend on the order in which equal offenders or accounts are picked |
| `TxLevel.TotalGrows` | chain/core/tx_pool.go:1063-1155 | a higher level keeps more, so the level reached is the highest possible |
| `TxPool.Pool.LimitQueue` | chain/core/tx_pool.go:1157-1197 | the most recently active remote accounts lose their queues, one transaction at a time, until exactly the limit is left or only local queues remain; at most one queue is cut in part, at its end; exactly what is cut is forgotten |
| `TxPool.Pool.PromoteExecutables` | chain/core/tx_pool.go:997-1198 | promotion of the given accounts, then the two limits, with every list, tracked nonce and heartbeat determined and exactly what leaves the lists forgotten: the heartbeats of the given accounts that had something promoted are now, all others as before, and the queue limit goes by them; afterwards the pool is within both limits as far as remote accounts go, each promoted remote account is within its queue allowance, and no promoted account has queued what it could execute next |
| `TxRun.NoneLeftReady` | chain/core/tx_pool.go:997-1198 | after promotion and both limits nothing is left in the queue that its account could execute next |
| `TxPool.Pool.AddTx` | chain/core/tx_pool.go:857-876 | add, then promotion of the sender and the limits if the transaction is new: the lists, tracked nonces and heartbeats are those of this run |
| `TxPool.Pool.AddTxs` | chain/core/tx_pool.go:887-917 | the transactions are added one after the other, each with its answer, then the accounts that got a new one are promoted and the limits enforced: the lists, tracked nonces and heartbeats are those of this run; the books stay in order and in step, and the pool within its size |
| `TxPoolProofs.QueuePartStrays` | chain/core/tx_pool.go:1018-1060 | forgetting just what leaves an account's queue leaves no transaction known but unlisted that was not so before |
| `TxPoolProofs.MovedStrays` | chain/core/tx_pool.go:1223-1240 | what moves between an account's two lists stays listed |
| `TxPool.Pool.TrackPending` | chain/core/tx_pool.go:405-409 | the tracked nonce of every pending account stands behind its last transaction |
| `TxPool.Pool.Realign` | chain/core/tx_pool.go:400-409 | every account is demoted as specified; afterwards all are in step if and only if each settled |
| `TxPool.Pool.Reset` | chain/core/tx_pool.go:323-414 | the books are in order and within limits on the new chain state; an account that was in step and whose chain nonce has not gone back is in step if and only if the reinjection took none of its pending nonces below the new chain nonce; so it is if it is local, and so are all if the pool has room for everything reinjected, or nothing is; one whose chain nonce has gone back is in step, once demoted and tracked, if and only if what was reinjected bridges the nonces from the new chain nonce to the old, and at the end if and only if so, or the last limits cut it back to its first nonces in a row; the pool stays within its size; all queued accounts are promoted, and none is left with something queued that it could execute next; lists, tracked nonces and heartbeats are those of the run |
| `TxReset.ResetIff` | chain/core/tx_pool.go:390-413 | for every batch and every new chain state: in step afterwards if and only if no eviction or cut took a pending nonce that the chain has passed |
| `TxReset.BatchTracks` | chain/core/tx_pool.go:398-398 | after the reinjection an account settles if and only if it was spared; otherwise its tracked nonce is below the chain's and all it has pending lower still |
| `TxReset.LocalSpared` | chain/core/tx_pool.go:671-688 | local accounts lose nothing, whatever is added |
| `TxReset.RoomSpared` | chain/core/tx_pool.go:671-688 | with room for the batch below the pending limit nobody loses anything |
| `TxReset.PendingAtMostKnown` | chain/core/tx_pool.go:647-826 | no more transactions are pending than are known |
| `TxBack.BackIff` | chain/core/tx_pool.go:390-413 | for every batch and every account whose chain nonce went back: in step after demotion if and only if all nonces from the new chain nonce to the old are pending whenever the new one is pending and the old one is pending and affordable; in step at the end if and only if so, or the last limits cut it back to its first nonces in a row |
| `TxBack.BatchSplits` | chain/core/tx_pool.go:398-398 | after the reinjection such an account has two runs pending, an affordable one from the new chain nonce and one from the old, and tracks the chain nonce if the first is empty |
| `TxBack.SplitSettlesIff` | chain/core/tx_pool.go:1203-1245 | two such runs settle if and only if they are bridged |
| `TxBack.RunKeepsTear` | chain/core/tx_pool.go:1043-1047 | promotion never mends a list with a gap |
| `TxBack.CutIff` | chain/core/tx_pool.go:1105-1125 | cut to k nonces, an account is in step if and only if its k lowest run from the chain nonce and the tracked nonce follows them, or lay beyond with the next one pending too |
| `TxGap.GapAfterReset` | chain/core/tx_pool.go:390-413 | an instance: the chain nonce goes back from 5 to 3 and transactions 4 and 3 are reinjected, but the account cannot pay for 4 any more; 3 joins the pending 5, and the whole reset leaves the gap |
| `TxGap.EvictedBelowChain` | chain/core/tx_pool.go:390-413 | an instance: reinjecting into a full pool evicts a nonce that the chain has passed; the tracked nonce goes below the chain's, and the whole reset leaves it there |
| `TxPoolProofs.RemovalKeepsSeamless` | chain/core/tx_pool.go:949-993 | removal keeps every account without gap from the chain nonce to the tracked one |
| `TxPoolProofs.PromotionKeepsSeamless` | chain/core/tx_pool.go:1042-1047 | promotion extends a gap-free list at its end |
| `TxPoolProofs.CutKeepsSeamless` | chain/core/tx_pool.go:1110-1124 | dropping the last pending transaction and going back to its nonce leaves no gap |
| `TxPoolProofs.RemovalOrphans` | chain/core/tx_pool.go:968-976 | what stood behind a removed pending transaction is listed afterwards if and only if something stood before it; otherwise it stays known but in no list |
| `TxPoolProofs.NoOrphansIff` | chain/core/tx_pool.go:949-993 | a removal leaves every other transaction listed if and only if the slot holds the transaction itself and, when pending, something stands before it or nothing behind |
| `TxPoolProofs.RivalOrphaned` | chain/core/tx_pool.go:965-967 | an instance: an orphan's slot is taken by a rival, and evicting the orphan takes the rival off its list |
| `TxPoolProofs.OrphanExample` | chain/core/tx_pool.go:968-976 | an instance: of two pending transactions the first is removed and the second is in no list |
| `TxPoolProofs.StayingRuns` | chain/core/tx_pool.go:1203-1247 | demotion leaves an account without gap if and only if the affordable part of its list had none or did not start at the chain nonce |
| `TxPoolProofs.GapSurvives` | chain/core/tx_pool.go:1232-1240 | a list with a gap behind its first nonce passes the gap check: all of it stays pending |
| `TxPoolProofs.ResetSeamless` | chain/core/tx_pool.go:398-409 | after demotion and tracking all accounts are in step if and only if each settled: what stays runs from the chain nonce, and if nothing stays the tracked nonce is the chain nonce |
| `TxPoolProofs.InStepSettles` | chain/core/tx_pool.go:390-409 | accounts in step with the old chain state settle on any new one, whatever its nonces and balances |
| `ChainModel.FindCommonAncestor` | chain/core/database_util.go:629-653 | the highest common ancestor that the database reaches from both headers, or nil exactly if it reaches none |
| `ChainModel.AncestorOfAncestor` | chain/core/headerchain.go:176-182 | an ancestor of an ancestor is the ancestor at that number |
| `HeaderChain.WroteKeeps` | chain/core/headerchain.go:137-201 | writing a header keeps the invariant: ancestor-closed store, summed difficulties, the canonical numbers exactly the ancestry of a head of highest total difficulty |
| `HeaderChain.EveryRun` | chain/core/headerchain.go:137-201 | in every run of header writes from the genesis, with any headers and coin tosses, every state meets the invariant, and the headers stored are exactly the genesis and those written when their parents were stored |
| `HeaderChain.HeaviestWins` | chain/core/headerchain.go:137-201 | in every run, at any time later, the head is at least as heavy as every header written when its parent was stored |
| `HeaderChain.Headers.constructor` | chain/core/headerchain.go:71-112 | the chain of the genesis alone meets the invariant |
| `HeaderChain.Headers.WriteHeader` | chain/core/headerchain.go:137-201 | refused exactly if the parent is not stored one number below; otherwise header and total difficulty are stored, heavier headers become head with their ancestry as canonical numbers, lighter ones never, equal ones exactly if the coin says so |
| `HeaderChain.DeleteAbove` | chain/core/headerchain.go:162-169 | the deletion loop ends and removes exactly the numbers from the given one on |
| `HeaderChain.Rewrite` | chain/core/headerchain.go:170-182 | the rewriting loop ends and leaves exactly the ancestry up to the given number |
| `HeaderChain.Renumber` | chain/core/headerchain.go:162-186 | delete, rewrite and extend together leave exactly the ancestry of the new head |
| `HeaderChain.Headers.SetHead` | chain/core/headerchain.go:412-445 | exactly the canonical numbers up to the given one are left, the header at the last of them is the head, and of the stored headers exactly the canonical ones above are deleted, with their difficulties |
| `HeaderChain.RewoundFacts` | chain/core/headerchain.go:412-445 | what rewinding leaves, header by header and number by number |
| `HeaderChain.RewindOrphans` | chain/core/headerchain.go:412-445 | an instance: after rewinding past a fork the side header has lost its parent |
| `HeaderChain.RewoundLinkedIff` | chain/core/headerchain.go:412-445 | rewinding keeps the store ancestor-closed if and only if no stored header off the canonical chain hangs from a deleted one |
| `TxIndex.WriteEntries` | chain/core/database_util.go:485-502 | each transaction of the block points to its block and its last position there, other entries stay |
| `TxIndex.TxDifference` | chain/core/types/transaction.go:519-534 | exactly the transactions of the first list that are not in the second |
| `TxIndex.ReorgIndexed` | chain/core/blockchain.go:1218-1236 | overwriting with the new branch and deleting what only the old branch had turns an exact index of the old head into an exact index of the new one |
| `TxIndex.ExtendIndexed` | chain/core/blockchain.go:851-854 | writing a block's entries over an exact index of its parent gives an exact index of the block |
| `BlockChain.Fork` | chain/core/blockchain.go:1166-1205 | the walk finds the highest common block, the new blocks above it from the top down, and the transactions of the old ones |
| `BlockChain.Blocks.constructor` | chain/core/blockchain.go:459-481 | the chain of the genesis alone meets the invariant |
| `BlockChain.Blocks.Insert` | chain/core/blockchain.go:459-481 | the block is head and canonical at its number, no other number changes; the head header and the fast-sync head move to it if and only if it was not canonical before |
| `BlockChain.Blocks.Reorg` | chain/core/blockchain.go:1143-1242 | afterwards the canonical numbers up to the new block are its ancestry and the index is exact for it; numbers above it are left as they were; the head header is the lowest block of the branch that was not canonical |
| `BlockChain.Blocks.MakeHead` | chain/core/blockchain.go:844-870 | reorganisation if needed, lookup entries and insertion make the block the head of a chain that meets the invariant |
| `BlockChain.Blocks.WriteBlock` | chain/core/blockchain.go:790-873 | every insertion keeps: canonical numbers up to the head are its ancestry, its total difficulty is highest, the lookup index holds exactly the transactions of its ancestry at their places; which blocks become head: the heavier does, the lighter does not, of equals the lower number does, the higher never, and between equal numbers the coin decides |
| `BlockChain.ExactNumbersIff` | chain/core/blockchain.go:459-481 | after an insertion the assigned numbers are exactly those up to the head if and only if none above it was assigned before; if they were exact before, if and only if the new head is not lower than the old |
| `BlockChain.StaleNumber` | chain/core/blockchain.go:459-481 | an instance: a head of equal difficulty and lower number leaves the old number assigned, to a block whose parent is not on the chain |
| `BlockChain.HeaderLagsIff` | chain/core/blockchain.go:1218-1224 | after a reorganisation that leaves old blocks behind, the head header is the lowest block of the new branch, so it is the new head if and only if that branch is one block long |
| `BlockChain.HeaderLags` | chain/core/blockchain.go:1218-1224 | an instance: the second block of a side branch wins and the head header is left at the first |
| `ChainIndexer.Indexer.SetValidSections` | chain/core/chain_indexer.go:386-398 | count and stored sections are as asked, and exactly the section heads from there up to the old count are gone |
| `ChainIndexer.Indexer.NewHead` | chain/core/chain_indexer.go:202-241 | a reorganisation takes known, stored and cascaded sections back to it, each no further; a new head raises the known sections to exactly those it buries under the confirmations, and never lowers them |
| `ChainIndexer.ProcessSection` | chain/core/chain_indexer.go:322-351 | from a section head and look-ups by number, of whatever chain each was made: succeeds if and only if every number of the section has a header that links to the one before |
| `IndexerRace.SectionReads` | chain/core/chain_indexer.go:332-345 | the look-ups of a section that completes are read steps of the protocol, from the old head to the section head |
| `ChainIndexer.Indexer.Settle` | chain/core/chain_indexer.go:284-303 | if the section before still has the head it was linked to, just this section is stored with its head and cascaded; otherwise nothing is known beyond what is stored |
| `ChainIndexer.CommitKeeps` | chain/core/chain_indexer.go:285-287 | a section is committed only when it is the next one and its predecessor is the one it was linked to |
| `ChainIndexer.StepKeeps` | chain/core/chain_indexer.go:202-398 | every step, down to the single statements of a notice and of the unlocked roll-back, in any order, keeps the invariant as long as no notice finds sections to roll back while the roll-back runs |
| `ChainIndexer.EveryRun` | chain/core/chain_indexer.go:202-398 | in every such run, however notices, processing and roll-backs interleave: the counter is never decremented below zero, and whenever nobody is rolling back, section heads exist exactly below the stored count, the persisted count equals it, and each head is reached from the one before by exactly the section size of parent links |
| `ChainIndexer.EveryRunBuried` | chain/core/chain_indexer.go:224-303 | in every such run a section is begun, and stored, only after a head was reported that buries its last block under the required confirmations |
| `IndexerRace.SectionStored` | chain/core/chain_indexer.go:262-303 | a section whose headers are there and link is stored with its last header as head, if nothing comes between |
| `ChainIndexer.HeadsChain` | chain/core/chain_indexer.go:386-429 | any two recorded heads are linked through exactly the blocks of the sections between them |
| `IndexerRace.CalmIff` | chain/core/chain_indexer.go:202-398 | that condition is exact: a step that meets it keeps the invariant, and after any step that does not, some interleaving underflows the counter or ends with a wrong index |
| `IndexerRace.NoticeBreaks` | chain/core/chain_indexer.go:202-241 | whenever a notice passes the guard of newHead during the roll-back, some interleaving breaks the index |
| `IndexerRace.RollBreaks` | chain/core/chain_indexer.go:327-330 | whenever the roll-back starts with sections stored while a notice is rolling back, some interleaving breaks the index |
| `IndexerRace.NoticeAlone` | chain/core/chain_indexer.go:202-241 | the statements of a notice, left alone, do what newHead does as a whole |
| `IndexerRace.ExampleOk` | chain/core/chain_indexer.go:386-398 | the state the next two instances start from, with two stored sections, meets the invariant |
| `IndexerRace.ExampleReached` | chain/core/chain_indexer.go:202-398 | that state is reached from the initial one by steps of the protocol |
| `IndexerRace.BothToZero` | chain/core/chain_indexer.go:327-330 | an instance: two stored sections and a notice about block 0; both end at zero and the second head is left behind |
| `IndexerRace.CountWithoutHead` | chain/core/chain_indexer.go:327-330 | an instance: two stored sections and a notice about block 1; the count ends at one with no head |
| `RandSelect.Insert` | chain/les/randselect.go:107-132 | the item goes into the first free cell; a free branch is always found; sums and counts stay exact |
| `RandSelect.FirstFree` | chain/les/randselect.go:108-114 | the first branch with room; the search never runs off the end of a node that is not full |
| `RandSelect.Reweigh` | chain/les/randselect.go:136-157 | just the cell at the index changes, and every sum and count above it follows |
| `RandSelect.Exact` | chain/les/randselect.go:98-104 | every node's sum and count are those of the cells below it |
| `RandSelect.DeepenedFlat` | chain/les/randselect.go:63-68 | a new level leaves every item at its index |
| `RandSelect.Choose` | chain/les/randselect.go:160-173 | the item returned is the one in whose stretch of the total weight the value lies |
| `RandSelect.HitsOnce` | chain/les/randselect.go:160-173 | no value selects two items |
| `RandSelect.HitCount` | chain/les/randselect.go:160-173 | each item is selected by exactly as many values as its weight |
| `RandSelect.WeightedRandomSelect.constructor` | chain/les/randselect.go:38-40 | an empty selector |
| `RandSelect.WeightedRandomSelect.SetWeight` | chain/les/randselect.go:54-73 | the item has the weight, or is gone if it is zero; every other item keeps its weight and its index; the total follows |
| `RandSelect.PickCount` | chain/les/randselect.go:160-173 | an item is picked by exactly as many of the values below the total as its weight says |
| `RandSelect.WeightedRandomSelect.Pick` | chain/les/randselect.go:84-85 | a value picks a listed item with its stored weight, and no other item |
| `RandSelect.WeightedRandomSelect.Round` | chain/les/randselect.go:84-92 | the item drawn gets its current weight and is accepted if that has not decreased or the second random number is below it; otherwise the total has become smaller |
| `RandSelect.WeightedRandomSelect.ChooseItem` | chain/les/randselect.go:79-94 | round by round from the first: each draws the item its random number picks from the weights it finds, which then gets its own weight; every round but the last is refused, and the last accepted, by the weight and coin rule, or nothing is left; the redrawing ends whatever the items' own weights do in between; if none has fallen, the item the first number picks is chosen |
| `RandSelect.FirstPicks` | chain/les/randselect.go:79-94 | if no item's own weight has fallen there is one round, and its random number decides |
| `PeerScan.NextRequest` | chain/les/distributor.go:178-227 | requests at the front that no peer can serve are dropped, and only those; a peer is offered the earliest request it can serve; a wait is the shortest of all offers; nothing is offered exactly if the queue is empty |
| `PeerScan.OfferIff` | chain/les/distributor.go:193-213 | an offer is the earliest queued request that the peer can be sent, if it can queue at all |
| `PeerScan.ServableIff` | chain/les/distributor.go:193-213 | a request can be served exactly if some peer can queue and be sent it |
| `PeerScan.AskAll` | chain/les/distributor.go:193-213 | after a request every peer is booked with the earliest request it can serve so far |
| `Distributor.InsertPoint` | chain/les/distributor.go:242-251 | the place that keeps the queue in request order |
| `Distributor.RequestDistributor.constructor` | chain/les/distributor.go:74-86 | an empty queue, no order given out, and no wake-up under way |
| `Distributor.RequestDistributor.Queue` | chain/les/distributor.go:233-260 | a new request gets the next order and goes to the back, a repeated one goes before all later ones; exactly one wake-up is under way and its send never blocks |
| `Distributor.RequestDistributor.Cancel` | chain/les/distributor.go:265-285 | true if and only if the request was still queued; it is gone, the others stay in order |
| `Distributor.RequestDistributor.Fire` | chain/les/distributor.go:152-155 | a timer's signal never blocks and stays the only one |
| `Distributor.RequestDistributor.Receive` | chain/les/distributor.go:126-127 | taking the signal keeps exactly one wake-up under way |
| `Distributor.RequestDistributor.Wake` | chain/les/distributor.go:126-160 | scan by scan from the old queue to the new one: each scan drops just the unservable requests at the front, and each send is an immediate offer of the scan before it, to a peer as the earliest request of that queue it could serve; every request is sent, dropped or still queued, and just one of these; the loop stops only when nothing can be sent at once, and sets one timer if anything is left; the timer runs for the shortest wait of all offers, at most ten milliseconds |
| `Feed.Find` | chain/event/feed.go:209-216 | the first index of a channel, or -1 exactly if it is not listed |
| `Feed.DeleteFacts` | chain/event/feed.go:219-221 | deletion takes out just that subscription, from the active ones if it was active |
| `Feed.DeactivateFacts` | chain/event/feed.go:224-228 | deactivation keeps all subscriptions and takes one from the active ones |
| `Feed.EventFeed.constructor` | chain/event/feed.go:61-66 | no subscriptions, slot 0 for removals |
| `Feed.EventFeed.Subscribe` | chain/event/feed.go:73-93 | one more subscription of the channel, which waits in the inbox |
| `Feed.EventFeed.Remove` | chain/event/feed.go:104-125 | just one subscription of the channel goes, from the inbox if it has one there |
| `Feed.EventFeed.Send` | chain/event/feed.go:128-186 | for every order of readiness, and removals arriving as given: each subscription not removed meanwhile has the value exactly once, a removed one at most once, only removals that arrived are taken, the result counts the deliveries, and the surviving subscriptions are the cases with slot 0 fixed; without removals everyone gets the value |
| `Gas.IntrinsicGas` | chain/core/state_transition.go:76-117 | 21000, or 53000 for a creation, plus 4 for each zero and 68 for each other byte |
| `Gas.IntrinsicIs` | chain/core/state_transition.go:76-117 | the same of the gas every message is charged for its data |
| `Gas.PaidWealth` | chain/core/state_transition.go:203-229 | a payment changes the sum of all balances by its amount |
| `Gas.Transition.constructor` | chain/core/state_transition.go:120-132 | a fresh gas counter on the given pool and balances |
| `Gas.Transition.BuyGas` | chain/core/state_transition.go:203-249 | the checks in order; on success pool and sender lost the gas and its price, on error nothing has changed; no other balance changes |
| `Gas.Transition.RefundGas` | chain/core/state_transition.go:461-478 | the refund is the counter, but at most half the gas spent; unused gas goes back to the pool and its price to the sender |
| `Gas.Transition.TransitionDb` | chain/core/state_transition.go:301-358 | the error of the first failing check, or exactly the specified gas used, balances, nonces and pool: account by account, the sender gets the price of the gas not used, the coinbase that of the gas used, and no one else anything the machine did not give |
| `Gas.TriedIff` | chain/core/state_transition.go:203-345 | a message is applied exactly if its nonce fits, the sender can buy the gas, the block has it left, it covers the data and the machine can make the transfer; otherwise the error names a check that fails |
| `Gas.Transition.Settle` | chain/core/state_transition.go:350-357 | account by account: the sender gets back the price of the gas left and refunded, the coinbase the price of the gas used; the pool gets the rest |
| `Gas.SettledAt` | chain/core/state_transition.go:350-357 | every balance after settling; the refund is the counter or half the gas spent, whichever is less |
| `Gas.OnlyEvmMakesMoney` | chain/core/state_transition.go:203-229 | buying, refunding and paying the coinbase together create and destroy no balance beyond what the virtual machine does |
| `Gas.Process` | chain/core/state_processor.go:54-93 | transaction by transaction, each from the pool, balances and nonces the one before left: the receipt tells the gas used and whether it failed, the first failing check ends the block; pool remaining plus total gas is the block limit, receipts carry the running total, and the money has changed by exactly what the virtual machine made in each transaction on the balances it was given; the coinbase has earned every fee, the senders have paid their own, and no other balance has changed but by the machine |
| `Gas.EveryBalance` | chain/core/state_processor.go:54-93 | over a block every account has what it had, what the machine gave it, as coinbase the fee of every message, less its own fees as sender |
| `Gas.ReceiptAppended` | chain/core/state_processor.go:136-141 | a receipt appended with the running total keeps all running totals right |
| `HdPath.ToString` | chain/accounts/hd.go:121-135 | the loop prints the specified form |
| `HdPath.ParseDerivationPath` | chain/accounts/hd.go:67-117 | the loop computes the specified result, with the error of the first bad component |
| `HdPath.ComponentRoundTrip` | chain/accounts/hd.go:89-115 | a printed component, hardened or not, parses back to itself for all 32-bit values |
| `HdPath.ComponentForm` | chain/accounts/hd.go:121-135 | a component is printed in decimal digits without leading zeros, with an apostrophe exactly if it is hardened, which takes 2^31 off |
| `HdPath.RoundTrip` | chain/accounts/hd.go:67-135 | parsing the printed form of a path gives it back, for all 32-bit components; only the empty path does not parse back |
| `HdPath.Stable` | chain/accounts/hd.go:67-135 | whatever parses, prints to a form that parses to the same path |
| `HdPath.Relative` | chain/accounts/hd.go:67-117 | a relative path parses as the printed form of the default root, a slash and that path; the default root is m/44'/60'/0'/0 |
| `HdPath.NumberForms` | chain/accounts/hd.go:99-103 | the prefixes 0x, 0b and 0 are read in base 16, 2 and 8 |
| `HdPath.SignForms` | chain/accounts/hd.go:99-103 | a sign in front is read as such |
| `HdPath.SpaceIgnored` | chain/accounts/hd.go:90-98 | space around a component is ignored |
| `HdPath.Refused` | chain/accounts/hd.go:76-112 | a leading slash is refused, and so are numbers that do not fit, hardened or not |

## Left out

- TxPool.Pool.Reset: the walk that collects the transactions to reinject is a parameter, and so is a state that cannot be loaded, where the source returns early.
- TxPool.Pool.Add: errors for an unrecoverable sender and a negative value do not occur, because the sender is a field of the transaction and values are naturals.
- TxPool.Pool.LimitPending: the priority queue keeps list lengths as 32-bit floats, which are exact below 2^24; the model picks by exact length.
- TxPriced.PricedList.Discard: the count asked for is met in heap entries; a transaction demoted earlier has two, so fewer distinct transactions may leave.
- BmtHasher.WrappedToggleSendsStale: chunks of more than two pieces are not instantiated; that their first arrival does not wait either is `BmtHasher.TogglePairWorks`.
- BmtHasher.ManyChunks: stops at 2^30 chunks, where the toggle counter wraps.
- HeaderChain.Headers.WriteHeader: look-ups go to the database by hash and number; the caches, keyed by hash alone, are not modelled.
- BlockChain.Blocks.WriteBlock: no transaction may repeat on a branch, which the nonces of the state, not modelled, see to; receipts and logs are left out.
- ChainIndexer.EveryRun: trusted checkpoints (`AddKnownSectionHead`) are left out; a child indexer is one more indexer that gets notices.
- RandSelect.WeightedRandomSelect.ChooseItem: weights are non-negative and do not overflow.
- RandSelect.Insert: nodes are values, so sharing of nodes is not captured.
- Distributor.RequestDistributor.Wake: shutdown is left out, and the random choice among ready peers is open.
- Feed.EventFeed.Subscribe: type errors are left out.
- HdPath.ParseDerivationPath: numbers are read as by the parser of Go 1.9, which the build files name; from Go 1.13 on it also reads the prefix 0o and underscores.
- TxPool.Pool.PromoteTx: not for a transaction that is pending already or whose nonce is still queued, which the queue never hands it.
- Gas.Process: transactions of the special kinds, which report no gas, and the block reward are left out.
- Gas.Transition.TransitionDb: the gas used before the refund, which it also returns, is left out.
- The pool holds its per-account lists by value, as specified in `TxModel`; that the list objects compute these values is proved separately in `TxList`.
- Numbers are unbounded except where the width matters: the toggle counter, message gas and path components.
- Journals, metrics, event feeds of the pool and the chain, and logging.
- Networking, peers, the console, RPC and configuration.
- The virtual machine, the state database, tries, encoding and the consensus engine.
- The account tables and method-name switches of `chain/boker`.
