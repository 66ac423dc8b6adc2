# Verification of the wallet toolbox core

A Dafny model of the stateful core of the wallet toolbox, with proofs of what that core promises over
every input and every run. `dafny verify dfyconfig.toml` checks the whole project.

| file | models |
|---|---|
| `RateLimiter.dfy` | the fixed-window limiter |
| `WorkerPool.dfy` | the workers that share one counter and one result array |
| `BestEffort.dfy` | batches that are bisected when they are refused |
| `FlowLock.dfy` | the promise chain that serialises permission flows of one originator |
| `RequestQueues.dfy` | the table of permission prompts and the waiters coalesced on them |
| `Beef.dfy` | the ancestor search that builds a BEEF |
| `MerkleTree.dfy` | the merkle root and path builders |
| `Ledger.dfy`, `ChainInvariant.dfy`, `LedgerValue.dfy` | the mock chain: posting, mining, reorganising; its chain invariants; who spends what and conservation of value |
| `UtxoCache.dfy`, `HeaderCache.dfy` | the two caches with their secondary indexes |
| `CursorScan.dfy` | paged, indexed scans of the IndexedDB storage |
| `OutputAllocation.dfy`, `BroadcastAdapter.dfy` | change allocation and its release, and the recording of broadcast outcomes |
| `TokenCodec.dfy`, `KeyWrapping.dfy` | user management tokens: their encodings, and the root keys wrapped in them |

Every object that the program updates in place is a class, and every loop a loop. Each method is proved
against a function on values (a state, a list, a byte string); the properties are then proved about those
functions and about sequences of operations. Concurrency is a step machine: a step is what runs between
two suspension points, and the results hold for every sequence of steps.

Hashes, transaction ids, ciphers, key derivations, signatures, UTF-8 and JSON are parameters. The only laws assumed of
them are stated as predicates: conversions invert (`TokenCodec.Inverts`), decryption inverts encryption
under its own key and fails under any other, key wrapping inverts (`KeyWrapping.Lawful`). Nothing is
assumed of the hash except in `MerkleTree.OnlyTheLeafFolds`.

Where the code does not do what its comments or a first reading suggest, the model follows the code:

- A window of the limiter never contains the opening call of the window before it, so a sliding interval
  holds at most `2 * max - 1` accepted calls, one fewer than two full windows would.
- `mapWithConcurrency` with a concurrency of zero or less returns an array of holes.
- When two calls settle one prompt, the second being the end of a grouped grant, the grant settles its waiters
  twice, and whoever asked again in between is dropped without an answer.
- A tag list that names a tag twice matches no record in "all" mode, since a record is mapped to a tag once.
- A failed `addProfile` or `deleteProfile` leaves the change in memory, and the next successful update
  writes it; a failed first publication leaves a token that can no longer be replaced.
- A privileged key that starts with a zero byte loses it at the first change of the token, and the profiles
  of such a user cannot derive privileged keys at all.
- A password change on a legacy token derives with the configured KDF but logs in with the legacy one.
- Idempotency keys of broadcast outcomes are kept in the history of one request, so they identify a
  delivery only together with that request; an attempt whose outcome cannot reach its transactions is
  recorded all the same and never tried again.
- Requests for one key stop sharing a load once the cache is cleared while a load is pending.
- A scan of outputs by user, basket, spendability and script hash throws, since a boolean is no index key.
- Block heights from 2^31 on would repeat the height bytes of earlier blocks.

## Model

| member | source | states |
|---|---|---|
| RateLimiter.Limiter.CheckLimit | src/security/RateLimiter.ts:9-25 | rejects bounds that are not positive safe integers before touching the table; otherwise answers and updates the table as the step function Decide |
| RateLimiter.ValidBoundsAreSafe | src/security/RateLimiter.ts:10-11 | the accepted bounds are the integers from 1 to 2^53 - 1 |
| RateLimiter.Limiter.Reset | src/security/RateLimiter.ts:27-30 | forgets one user, or everyone |
| RateLimiter.SlidingIntervalBound | src/security/RateLimiter.ts:9-25 | in every run with a non-decreasing clock, any half-open interval of one window length holds at most 2 * max - 1 accepted calls of a user |
| RateLimiter.BoundIsReached | src/security/RateLimiter.ts:9-25 | that bound is attained, for every max and every window of at least 2 |
| RateLimiter.WindowBound | src/security/RateLimiter.ts:16-24 | a started window accepts at most max calls over its whole length |
| RateLimiter.WindowsDoNotOverlap | src/security/RateLimiter.ts:16-19 | the next window of a user starts only after the previous one has run its full length |
| WorkerPool.SharedState.ClaimNext | src/WalletPermissionsManager.ts:2870-2876 | the head of a worker's loop: takes the next index from the shared counter, or returns |
| WorkerPool.SharedState.StoreAnswer | src/WalletPermissionsManager.ts:2870-2880 | the tail of a worker's loop: stores the answer at its own index, or stops the worker if the function threw |
| WorkerPool.CallsOnceAndBounded | src/WalletPermissionsManager.ts:2867-2880 | in every interleaving the function is called in index order, at most once per index, with never more calls in progress than there are items, nor than the concurrency allows |
| WorkerPool.ConcurrencyIsReached | src/WalletPermissionsManager.ts:2867-2880 | for every positive concurrency some run has as many calls in progress as that, or as there are items |
| WorkerPool.CompleteExactlyWhenConcurrent | src/WalletPermissionsManager.ts:2867-2880 | when all workers have returned, every index was called once and the result is the in-order map of the items exactly if there were no items or the concurrency is positive |
| WorkerPool.NoWorkersNoCalls | src/WalletPermissionsManager.ts:2867-2880 | with a concurrency of zero or less nothing is ever called |
| WorkerPool.EveryStepProgresses | src/WalletPermissionsManager.ts:2867-2880 | every step uses up a budget of twice the items plus the workers, so the pool terminates |
| WorkerPool.NeverStuck | src/WalletPermissionsManager.ts:2867-2880 | a worker that has neither returned nor thrown always has a step |
| BestEffort.Batcher.RunBestEffortChunk | src/WalletPermissionsManager.ts:2896-2909 | returns the mapped acceptable items in order, commits exactly those, in order and once each, and makes Calls(chunk) submissions; the recursion terminates |
| BestEffort.Batcher.RunBestEffortBatches | src/WalletPermissionsManager.ts:2882-2894 | returns the mapped acceptable items of all chunks in original order and commits each exactly once, for any positive chunk size |
| BestEffort.CallsLinear | src/WalletPermissionsManager.ts:2896-2909 | at most 2n - 1 submissions for a chunk of n items |
| BestEffort.CallsWorstCase | src/WalletPermissionsManager.ts:2896-2909 | exactly 2n - 1 when every item is unacceptable |
| BestEffort.CallsPerReject | src/WalletPermissionsManager.ts:2896-2909 | at most one submission plus two per unacceptable item and level of bisection |
| BestEffort.BatchCallsLinear | src/WalletPermissionsManager.ts:2882-2909 | a whole operation makes at most twice as many submissions as items, less one per batch |
| FlowLock.TailMap.Enter | src/WalletPermissionsManager.ts:1995-2005 | reads the originator's tail and publishes a new one behind it |
| FlowLock.TailMap.BeginSection | src/WalletPermissionsManager.ts:2007-2009 | the section starts once the prior tail has resolved |
| FlowLock.TailMap.EndSection | src/WalletPermissionsManager.ts:2009-2011 | the section ends, returning or throwing, and opens its gate |
| FlowLock.TailMap.TailResolved | src/WalletPermissionsManager.ts:2004-2016 | the caller's own tail resolves after the prior tail and its gate |
| FlowLock.TailMap.DeleteOwnTail | src/WalletPermissionsManager.ts:2012-2016 | the map entry is deleted only if it is still the caller's own tail |
| FlowLock.ExclusiveAndInOrder | src/WalletPermissionsManager.ts:1995-2018 | in every interleaving, once a section has begun every earlier section of its originator has ended |
| FlowLock.BegunInArrivalOrder | src/WalletPermissionsManager.ts:1995-2018 | sections of one originator begin in arrival order, each at most once |
| FlowLock.TailDeletedOnlyWhenIdle | src/WalletPermissionsManager.ts:2012-2016 | a step that deletes a tail entry finds every caller of that originator finished |
| FlowLock.ChainNeverStalls | src/WalletPermissionsManager.ts:1995-2018 | throwing sections, deleted tails and running sections of other originators never block a chain: the earliest unfinished caller of each originator always has a step |
| FlowLock.ChainDrains | src/WalletPermissionsManager.ts:1995-2018 | every run can go on, without new arrivals, until all callers have had their section and finished and the map of tails is empty |
| FlowLock.CallersAreArrivals | src/WalletPermissionsManager.ts:1995-2018 | the callers are those that arrived, in that order, and the sections begun are those of the callers that wait no more |
| RequestQueues.Requests.Enqueue | src/WalletPermissionsManager.ts:2208-2263 | pushes a waiter to the key's queue, or puts a new queue into the table |
| RequestQueues.Requests.RequestPermission | src/WalletPermissionsManager.ts:2173-2190 | the stretch of a request up to its first await |
| RequestQueues.Requests.RecheckAndEnqueue | src/WalletPermissionsManager.ts:2200-2204 | the second look at the table, and the enqueueing that follows it without an await between |
| RequestQueues.RequestsBecomeWaiters | src/WalletPermissionsManager.ts:2173-2261 | a request that finds its prompt on arrival, looks a second time, or is for a grouped prompt or a pact adds exactly one unsettled waiter, last in the queue that the key had, or alone in the one it has then; no other step adds one |
| RequestQueues.RequestsAreConserved | src/WalletPermissionsManager.ts:2173-2261 | after any run every request is a waiter, between its two looks, or answered without a prompt, and the waiters are as many as the requests that completed |
| RequestQueues.Requests.Settle | src/WalletPermissionsManager.ts:858-925 | resolves or rejects every waiter of an active prompt and deletes it; unknown prompts are errors |
| RequestQueues.Requests.BeginGroupedGrant | src/WalletPermissionsManager.ts:933-950 | a grouped grant captures the queue object before it awaits its tokens, also when another grant of the prompt is in progress |
| RequestQueues.Requests.FinishGroupedGrant | src/WalletPermissionsManager.ts:1033-1046 | the grant settles the queue object it captured and deletes whatever the table has under its key by then |
| RequestQueues.EveryWaiterAccountedFor | src/WalletPermissionsManager.ts:858-925 | after any run in which no grant ends after a settling call has hit its prompt, every waiter is either settled exactly once and in no active queue, or unsettled and listed once in exactly one |
| RequestQueues.AccountedExactlyWithoutOverlap | src/WalletPermissionsManager.ts:858-1098 | over all runs of overlapping calls: every waiter stays accounted for -- settled once and out of the table, or unsettled and listed once -- exactly when no grant ends after another settling call has hit its prompt |
| RequestQueues.StepKeepsAccountsExactly | src/WalletPermissionsManager.ts:858-1098 | a single step keeps every waiter accounted for exactly unless it ends a grant whose queue has left the table |
| RequestQueues.LiveExactlyWhenNotHit | src/WalletPermissionsManager.ts:933-1098 | at any point of a run a grant in progress still has its queue in the table exactly when no settling call has hit its prompt since it began |
| RequestQueues.DeadGrantSettlesTwice | src/WalletPermissionsManager.ts:1033-1046 | a grant that ends without its queue in the table settles each waiter of that queue a second time |
| RequestQueues.DeadGrantDropsQueue | src/WalletPermissionsManager.ts:1033-1046 | and it drops the queue that its key has by then without settling it |
| RequestQueues.StrandedExactly | src/WalletPermissionsManager.ts:1033-1046 | the end of a grant strands -- leaves unsettled and out of the table -- exactly the waiters of the queue its key then has, if that is not its own |
| RequestQueues.StrandedJoinedAfterTheHit | src/WalletPermissionsManager.ts:1033-1098 | seen from the overlap: stranded are exactly those who joined the prompt after the last settling call that hit it and before the grant ended |
| RequestQueues.OverlapStrandsAWaiter | src/WalletPermissionsManager.ts:933-1098 | the shortest such run, for every grouped or pact prompt: joined, granted, dismissed, joined again, grant ends -- the first waiter is settled twice, the second never |
| RequestQueues.QueueNeverOverwritten | src/WalletPermissionsManager.ts:2173-2261 | a step, also across the awaits between first look and enqueueing, leaves the queue under a key with all its waiters, or all of them just settled, exactly unless it ends a grant of the key whose own queue has left the table |
| RequestQueues.GrantHoldsItsQueue | src/WalletPermissionsManager.ts:933-1046 | while a grant is in progress and nothing hits its prompt, its queue stays in the table and only grows |
| RequestQueues.JoinersSettledWithTheGrant | src/WalletPermissionsManager.ts:2134-2163 | everyone who waited when a grouped grant began or joined during it is settled exactly once when it ends, if nothing has hit it |
| RequestQueues.FinishSettlesQueue | src/WalletPermissionsManager.ts:1033-1046 | ending a grant that still has its queue settles everyone listed at that time |
| RequestQueues.RunKeepsShape | src/WalletPermissionsManager.ts:858-2261 | whatever calls overlap, every run keeps the shape of the table: non-empty queues under their own keys, each waiter listed at most once, in its own queue, and grants holding queues of their key |
| Beef.Builder.AddTxToBeef | src/fundWalletP2PKH.ts:253-277 | succeeds exactly when the depth-bounded search AddTx does, with its visited set and merge order; data that is missing, is no transaction or hashes to another id is refused |
| Beef.Builder.BuildForOutpoints | src/fundWalletP2PKH.ts:279-288 | drives the search from every requested outpoint, in order; an outpoint that is not 64 hexadecimal digits, a dot and a safe integer is refused |
| Beef.OutpointParsesExactly | src/fundWalletP2PKH.ts:45-52 | for all strings, hex + "." + digits parses exactly if hex has 64 hexadecimal digits and digits is a decimal of at most 2^53 - 1; the txid is hex with its capitals in lower case, the index the value |
| Beef.OnlyOutpointsParse | src/fundWalletP2PKH.ts:45-52 | nothing else parses |
| Beef.DecimalInverts | src/fundWalletP2PKH.ts:48-49 | reading the decimal notation of a number gives the number |
| Beef.BuildIsOrderedAndClosed | src/fundWalletP2PKH.ts:253-283 | when no requested transaction or unproven ancestor is its own ancestor, a successful build merges every requested transaction, none twice, and each one without a merkle path after all of its sources |
| Beef.OrderedExactlyWhenAcyclic | src/fundWalletP2PKH.ts:253-283 | a successful build is in that order exactly when the requested transactions lie in a set that is closed under unproven sources and has no cycle |
| Beef.BuildIsMinimal | src/fundWalletP2PKH.ts:253-283 | nothing is merged that some set closed under needed sources and holding the requests does not contain |
| Beef.BuildSucceedsWithinDepth | src/fundWalletP2PKH.ts:253-260 | the build succeeds when everything needed is served and no unproven chain is longer than maxDepth |
| Beef.RequestsAreBuilt | src/fundWalletP2PKH.ts:253-288 | for every list of 64-digit txids in any case with safe indexes, served within the depth: the build succeeds and merges every requested transaction, each unproven one after its sources |
| Beef.BuildStaysWithinDepth | src/fundWalletP2PKH.ts:255-257 | whatever is merged is needed from a request over at most maxDepth generations; a build fails rather than go deeper |
| Beef.AllVisitedAreMerged | src/fundWalletP2PKH.ts:254-277 | what has been visited is what has been merged, over several roots and shared ancestors, and holds every requested transaction |
| Beef.MergedIdsAreHashes | src/fundWalletP2PKH.ts:55-62 | every merged id is the hash of the raw transaction merged for it, up to case, whatever the providers serve |
| MerkleTree.HashPairsLE | src/mockchain/merkleTree.ts:22-36 | one level of the root computation, on little-endian nodes, is NextLevel of the big-endian nodes |
| MerkleTree.ComputeMerkleRoot | src/mockchain/merkleTree.ts:10-43 | an error for an empty list, otherwise the root of the tree defined by NextLevel |
| MerkleTree.HashPairsBE | src/mockchain/merkleTree.ts:117-128 | one level of the path computation, on big-endian nodes, is the same NextLevel |
| MerkleTree.ComputeTreeHeight | src/mockchain/merkleTree.ts:68-73 | counts the halvings |
| MerkleTree.SiblingLeaves | src/mockchain/merkleTree.ts:83-115 | the leaves that one level contributes, the target only at the bottom, duplicates at an odd end |
| MerkleTree.ComputeMerklePath | src/mockchain/merkleTree.ts:45-133 | an error exactly for an index out of range, otherwise the path defined by Path |
| MerkleTree.PathProvesInclusion | src/mockchain/merkleTree.ts:10-133 | for every non-empty list and every index, folding the computed path from the leaf gives the computed root |
| MerkleTree.OneLevelPerHalving | src/mockchain/merkleTree.ts:68-128 | the path has one level per halving |
| MerkleTree.SiblingAtEveryLevel | src/mockchain/merkleTree.ts:82-128 | level l of the path holds the sibling of the index shifted right by l, and above the bottom nothing else |
| MerkleTree.BottomHasTheTarget | src/mockchain/merkleTree.ts:82-108 | the bottom level has the target, marked as a txid, and its sibling or a duplicate mark, in the order of their offsets |
| MerkleTree.OnlyTheTargetIsMarked | src/mockchain/merkleTree.ts:82-115 | no other leaf of the path is marked as a txid, and exactly the leaves without a hash are duplicates |
| MerkleTree.ShiftIsDivision | src/mockchain/merkleTree.ts:129-129 | that shifted index is the index divided by 2^l |
| MerkleTree.HeightIsLogarithm | src/mockchain/merkleTree.ts:68-73 | the path length is the base-2 logarithm of the number of transactions, rounded up |
| MerkleTree.OnlyTheLeafFolds | src/mockchain/merkleTree.ts:10-133 | without hash collisions along the way, a value that folds to the root at an index is the leaf at that index |
| Ledger.EncodeHeight | src/mockchain/MockMiner.ts:17-34 | the coinbase loop, with its 32-bit shift, produces the height bytes HeightBytes for every height |
| Ledger.HeightIsMinimalScriptNumber | src/mockchain/MockMiner.ts:17-34 | the height bytes decode to the height exactly below 2^31; there they are non-negative and minimal, as BIP 34 (Specification) asks |
| Ledger.HeightBytesAreInjective | src/mockchain/MockMiner.ts:17-34 | different heights below 2^31 have different height bytes; height 2^31 has those of the genesis block |
| Ledger.ChainTip | src/mockchain/MockChainStorage.ts:118-121 | the highest stored header height, if any |
| Ledger.OrderedBlock | src/mockchain/MockChainStorage.ts:123-125 | exactly the transactions of a block, ordered by block index |
| Ledger.Unmined | src/mockchain/MockChainStorage.ts:63-65 | exactly the unmined transactions, in some order |
| Ledger.MockServices.PostOneTx | src/mockchain/MockServices.ts:97-133 | accepts exactly when every input is known, unspent and mature, the scripts verify and the transaction is new; then stores it, its outputs and its spends, else changes nothing |
| Ledger.SpendableExactly | src/mockchain/MockServices.ts:115-127 | an input can be spent exactly if its output is stored and unspent and, for the coinbase of a mined block, that block is at least 100 below the tip |
| Ledger.MockServices.StoreAll | src/mockchain/MockServices.ts:157-164 | inserts one unspent row per output, none of whose keys was taken |
| Ledger.MockServices.SpendAll | src/mockchain/MockServices.ts:166-171 | marks the rows of all inputs spent by the transaction |
| Ledger.MockServices.InsertBlock | src/mockchain/MockMiner.ts:92-140 | inserts coinbase, reward, placements and header together, or nothing if a key or header hash is taken |
| Ledger.MockServices.PlaceAll | src/mockchain/MockMiner.ts:119-128 | gives the listed transactions consecutive indexes from 1, and their rows the height |
| Ledger.MockServices.MineBlock | src/mockchain/MockMiner.ts:57-140 | mines all unmined transactions on top of the tip |
| Ledger.MockServices.TearDownBlock | src/mockchain/MockServices.ts:196-211 | deletes the coinbase with its outputs, unmines the other transactions of the block and deletes its header |
| Ledger.MockServices.TearDownOldBlocks | src/mockchain/MockServices.ts:195-212 | tears out the blocks from one height down to another, top first |
| Ledger.MockServices.MineReorgBlocks | src/mockchain/MockServices.ts:214-252 | mines the new blocks one on top of the other with the transactions mapped to them, or fails |
| Ledger.MockServices.Reorg | src/mockchain/MockServices.ts:173-193 | tears down and mines anew; an error in either undoes both |
| Ledger.MockServices.GetMerklePath | src/mockchain/MockServices.ts:274-287 | a path exactly for mined transactions, computed from an ordered listing of their block, with the header of that height |
| ChainInvariant.ReachableIsConsistent | src/mockchain/MockServices.ts:173-252 | every database reachable by posting, mining and reorganising is a consistent chain |
| ChainInvariant.ConsistentMeans | src/mockchain/MockServices.ts:195-252 | spelled out: heights contiguous from 0, headers hash-linked, coinbase at index 0, every mined transaction under a stored header, output heights those of their transactions |
| ChainInvariant.MerklePathMeetsStoredRoot | src/mockchain/MockServices.ts:274-287 | the path of every mined transaction, from any ordered listing of its block, computes the merkle root stored in the header at its height |
| ChainInvariant.ListsTheWholeBlock | src/mockchain/MockChainStorage.ts:123-125 | the ordered listing of a block is the list its merkle root was computed from |
| ChainInvariant.PostKeeps | src/mockchain/MockServices.ts:97-113 | posting keeps the chain consistent |
| ChainInvariant.MineKeeps | src/mockchain/MockMiner.ts:57-140 | mining a list of stored, unmined transactions appends one block |
| ChainInvariant.MinesExactly | src/mockchain/MockMiner.ts:57-140 | on a consistent chain mining is refused exactly when the coinbase, height or hash of the new block is in use |
| ChainInvariant.TearDownKeeps | src/mockchain/MockServices.ts:195-212 | tearing down to a height leaves exactly the blocks below it |
| ChainInvariant.MineReorgKeeps | src/mockchain/MockServices.ts:214-252 | the reorganised blocks extend the chain, when the mapped transactions are stored and unmined |
| ChainInvariant.ReorgPlacesInOrder | src/mockchain/MockServices.ts:214-252 | after a successful reorganisation each mapped transaction is mined in the block it is mapped to, behind the coinbase and the earlier entries for that block |
| ChainInvariant.ReorgSucceedsExactly | src/mockchain/MockServices.ts:150-252 | a reorganisation of a consistent chain goes through exactly when it starts at or below the tip and, if it mines, not below 0 and with every new block's keys free |
| LedgerValue.ReachableLedgerBalances | src/mockchain/MockServices.ts:97-252 | in every run whose reorganisations tear out no block with a spent coinbase: each input of each stored non-coinbase transaction is a row spent by exactly that transaction, nothing else is spent, and the unspent value is 5,000,000,000 per block minus the fees |
| LedgerValue.TearingDownKeepsSpendsExactly | src/mockchain/MockServices.ts:195-212 | tearing out all blocks from a height on keeps all inputs in place exactly when no coinbase output of those blocks has been spent |
| LedgerValue.RecentCoinbaseIsUnspent | src/mockchain/MockServices.ts:125-127 | no coinbase output of a block within 100 of the highest tip has been spent |
| LedgerValue.ShallowRunIsCareful | src/mockchain/MockServices.ts:125-127 | the maturity rule is enough: in a run whose reorganisations start less than 100 below the highest tip ever, none tears out a spent coinbase |
| LedgerValue.PostSpends | src/mockchain/MockServices.ts:115-171 | an accepted transaction holds its own inputs and takes none from another |
| LedgerValue.PostBalances | src/mockchain/MockServices.ts:97-171 | accepting a transaction, also one that names an input twice, moves value from the rows it spends to its outputs and its fee |
| LedgerValue.MineBalances | src/mockchain/MockMiner.ts:57-140 | mining adds one reward to the unspent value |
| LedgerValue.TearBalances | src/mockchain/MockServices.ts:195-212 | tearing out a block with an unspent reward takes that reward away |
| UtxoCache.UtxoCacheManager.RemoveKey | src/cache/UtxoCacheManager.ts:225-235 | eviction, expiry and deletion of one key also remove it from the outpoint index |
| UtxoCache.UtxoCacheManager.Set | src/cache/UtxoCacheManager.ts:98-110 | stores cacheable results only, under the key and in the outpoint's group; the index stays the grouping of the keys exactly for outpoints without a colon |
| UtxoCache.UtxoCacheManager.BeginGetOrLoad | src/cache/UtxoCacheManager.ts:65-86 | a hit, an in-flight load to join, or a new load stamped with the current generation |
| UtxoCache.UtxoCacheManager.FinishLoad | src/cache/UtxoCacheManager.ts:86-96 | the continuation of a load: stores a cacheable result of its own generation, and drops the in-flight entry of its key |
| UtxoCache.UtxoCacheManager.GetUtxoStatus | src/cache/UtxoCacheManager.ts:112-136 | answers from some live entry of the outpoint, or nothing if there is none; drops only expired keys |
| UtxoCache.UtxoCacheManager.InvalidateOutpoint | src/cache/UtxoCacheManager.ts:153-166 | advances the generation, removes every key of the outpoint and counts them |
| UtxoCache.UtxoCacheManager.InvalidateByBlock | src/cache/UtxoCacheManager.ts:174-195 | invalidates the given outpoints, or everything |
| UtxoCache.UtxoCacheManager.ClearAll | src/cache/UtxoCacheManager.ts:197-205 | advances the generation and empties cache, in-flight table and index |
| UtxoCache.KeyRecoversOutpoint | src/cache/UtxoCacheManager.ts:225-230 | the outpoint cut from a key is the one it was made from exactly when that has no colon |
| UtxoCache.KeysIdentifyQueries | src/cache/UtxoCacheManager.ts:225-227 | two queries share a key exactly when format (hashLE by default), output and outpoint agree, if the outpoints and either the outputs or the formats have no colon |
| UtxoCache.StoresAnswersOnly | src/cache/UtxoCacheManager.ts:98-110 | exactly successful results that say whether the output is unspent are stored, under the key of their query |
| UtxoCache.StoreThenRemoveClearsIndex | src/cache/UtxoCacheManager.ts:225-235 | storing and removing a result leaves no group behind exactly for colon-free outpoints |
| UtxoCache.ForgetKeepsGroups | src/cache/UtxoCacheManager.ts:229-235 | removing a key keeps the index equal to the grouping of the live keys, with no empty group |
| UtxoCache.RememberKeepsGroups | src/cache/UtxoCacheManager.ts:98-110 | adding a key keeps it so |
| UtxoCache.GenerationCounts | src/cache/UtxoCacheManager.ts:153-205 | the generation counts the invalidations, and a load keeps the one it began in |
| UtxoCache.StoredExactlyWhenNotInvalidated | src/cache/UtxoCacheManager.ts:85-96 | a load stores its result exactly when it is cacheable and no invalidation happened since the load began |
| UtxoCache.InvalidationRemovesExactly | src/cache/UtxoCacheManager.ts:153-166 | an invalidation removes all entries of the outpoint and no other |
| UtxoCache.BlockInvalidationRemovesExactly | src/cache/UtxoCacheManager.ts:174-195 | a block invalidation removes exactly the entries of its outpoints |
| UtxoCache.OnlyCacheableIsCached | src/cache/UtxoCacheManager.ts:98-99 | no run caches anything but successes that say whether the output is unspent |
| UtxoCache.OrphanedExactly | src/cache/UtxoCacheManager.ts:85-96 | which event orphans which load, that is, makes it no longer joined by requests for its key: a clear orphans all pending loads, the end of an orphan those of its key, and nothing else does |
| UtxoCache.SharesExactlyUnlessClearedEarly | src/cache/UtxoCacheManager.ts:65-96 | requests for one key share one pending load; every event keeps that, a clear exactly when no load is pending |
| UtxoCache.SharesThroughoutExactlyWhenClearsIdle | src/cache/UtxoCacheManager.ts:65-205 | over all runs: loads are shared at every point exactly when every clear comes while no load is pending |
| UtxoCache.OrphansSpread | src/cache/UtxoCacheManager.ts:85-96 | from any state: a load pending at a clear drops, when it ends, the entry of the next load of its key, whose end drops that of the one after, although both began after the clear |
| HeaderCache.BlockHeaderCache.GetByHeight | src/cache/BlockHeaderCache.ts:62-69 | the cached header at a height |
| HeaderCache.BlockHeaderCache.GetByHash | src/cache/BlockHeaderCache.ts:75-82 | the cached header with a hash |
| HeaderCache.BlockHeaderCache.DoInvalidateHash | src/cache/BlockHeaderCache.ts:121-128 | removes the header from both indexes and the ordered hash set |
| HeaderCache.BlockHeaderCache.DoInvalidateHeight | src/cache/BlockHeaderCache.ts:110-119 | removes the header at the height from both indexes and the ordered hash set |
| HeaderCache.BlockHeaderCache.ExpireHeightKey | src/cache/BlockHeaderCache.ts:177-181 | expiry of a height key removes the hash key and the hash as well |
| HeaderCache.BlockHeaderCache.ExpireHashKey | src/cache/BlockHeaderCache.ts:182-187 | expiry of a hash key removes the height key and the hash as well |
| HeaderCache.BlockHeaderCache.InvalidateFromHeight | src/cache/BlockHeaderCache.ts:130-140 | keeps exactly the headers below the height, and counts the removed ones |
| HeaderCache.BlockHeaderCache.EvictOldHeaders | src/cache/BlockHeaderCache.ts:169-175 | keeps the newest maxEntries headers |
| HeaderCache.BlockHeaderCache.DoSet | src/cache/BlockHeaderCache.ts:91-108 | displaces what has the same height or hash, appends the header, and evicts |
| HeaderCache.BlockHeaderCache.SetHeader | src/cache/BlockHeaderCache.ts:84-89 | caches the header as DoSet does, refusing one of another height |
| HeaderCache.BlockHeaderCache.DoClear | src/cache/BlockHeaderCache.ts:142-148 | empties the cache |
| HeaderCache.BlockHeaderCache.OnBlockMined | src/cache/BlockHeaderCache.ts:28-35 | a mined block invalidates from its height and caches its header |
| HeaderCache.BlockHeaderCache.OnReorg | src/cache/BlockHeaderCache.ts:37-45 | a reorg invalidates the listed headers, or the heights above its depth, or everything |
| HeaderCache.RunUniqueAndBounded | src/cache/BlockHeaderCache.ts:28-187 | after any events no two cached headers share a height or a hash, and at most maxEntries are cached |
| HeaderCache.RemovalKeepsInverse | src/cache/BlockHeaderCache.ts:121-128 | removing a hash keeps the indexes mutually inverse and the hash set equal to the hash index's domain |
| HeaderCache.SetKeepsInverse | src/cache/BlockHeaderCache.ts:91-103 | caching a header keeps them so |
| HeaderCache.ReorgByDepthRemovesExactly | src/cache/BlockHeaderCache.ts:40-42 | a depth-only reorg removes exactly the headers above oldTip.height - depth |
| HeaderCache.ReorgByListRemovesExactly | src/cache/BlockHeaderCache.ts:38-39 | a reorg with deactivated headers removes exactly those hashes |
| HeaderCache.MinedHeaderIsTheTip | src/cache/BlockHeaderCache.ts:28-35 | a mined header becomes the newest entry, above every other cached one |
| HeaderCache.EvictionIsFirstInFirstOut | src/cache/BlockHeaderCache.ts:169-175 | a full cache makes room by dropping its oldest entry only |
| CursorScan.ScanCursor | src/storage/StorageIdb.ts:90-111 | accepts exactly the drop(offset)-take(limit) slice of the records that pass, a zero or absent limit meaning all, and counts them |
| CursorScan.SelectedAreRecent | src/storage/StorageIdb.ts:90-111 | the records that pass are those that match and were changed at or after the given time |
| CursorScan.CursorsAreOpposite | src/storage/StorageIdb.ts:1362-1364 | a descending cursor walks the same records in the opposite order |
| CursorScan.PagesConcatenate | src/storage/StorageIdb.ts:90-111 | consecutive pages of one size concatenate to the sequence |
| CursorScan.OutputsIndexIsTransparent | src/storage/StorageIdb.ts:1309-1342 | a scan of the outputs through the index that its request selects gives what a full scan gives, in the same order, exactly unless it asks for the index with the boolean column by user, basket, spendability and script hash; then it throws |
| CursorScan.TransactionsIndexIsTransparent | src/storage/StorageIdb.ts:1503-1523 | whichever index the transactions cursor uses, a scan gives what a full scan gives, in the same order |
| CursorScan.MatchesIds | src/storage/StorageIdb.ts:1392-1411 | tag and label matching: all wanted ids, counted with multiplicity, are mapped to the record, or any of them is |
| CursorScan.StrikeAllMeansAll | src/storage/StorageIdb.ts:1392-1411 | striking ids one by one empties the list exactly when the rows cover it with multiplicity |
| CursorScan.StrikeAllMeansAny | src/storage/StorageIdb.ts:1392-1411 | in "any" mode the list empties exactly when some wanted id is mapped, or none was wanted |
| CursorScan.AllModeIsSubsetExactlyForDistinctIds | src/storage/StorageIdb.ts:1392-1411 | "all" mode means that every wanted id is mapped, for all records, exactly when the wanted list repeats no id |
| OutputAllocation.ChooseChangeInput | src/storage/StorageIdb.ts:262-297 | the choice is the first exact match, else the least sufficient output, else the largest one, ties by scan order, or nothing if there is no candidate |
| OutputAllocation.PickByScore | src/storage/StorageIdb.ts:283-297 | from scores sorted stably: the first non-negative one, else the last |
| OutputAllocation.SortByScore | src/storage/StorageIdb.ts:283-284 | sorted by score, ties in scan order, with the same members |
| OutputAllocation.BestFitIsUnique | src/storage/StorageIdb.ts:270-297 | that choice is determined by the database |
| OutputAllocation.BestFitMeans | src/storage/StorageIdb.ts:262-297 | nothing is chosen exactly without candidates; else the first candidate of a wanted exact amount, else the first of the smallest that cover the target, else the last of the largest |
| OutputAllocation.CandidatesAreSettled | src/storage/StorageIdb.ts:262-282 | candidates are the spendable outputs of the user's basket whose transaction is completed or unproven, or sending unless that is excluded |
| OutputAllocation.Storage.AllocateChangeInput | src/storage/StorageIdb.ts:252-312 | the chosen output becomes unspendable and held by the transaction; nothing else changes |
| OutputAllocation.Storage.ReleaseChangeInput | src/storage/methods/createAction.ts:850-860 | action creation gives an allocated output back; change of its own batch stays as it is |
| OutputAllocation.Storage.UpdateTransactionStatus | src/storage/StorageProvider.ts:478-531 | finds exactly one transaction by the arguments that are not 0 or empty, or fails; refuses changes to completed, proven and failed ones and invalid statuses; a refusal changes nothing |
| OutputAllocation.UpdatesExactly | src/storage/StorageProvider.ts:478-531 | an update goes through exactly when the arguments name one transaction that may take the status, and then writes that one |
| OutputAllocation.AllowedChanges | src/storage/StorageProvider.ts:498-527 | no change of a proven transaction, none away from completed or failed, none to nonfinal or unfail |
| OutputAllocation.Storage.FreeHeldInputs | src/storage/StorageProvider.ts:505-516 | the loop over the inputs found through spentBy makes exactly those outputs usable again |
| OutputAllocation.Storage.UpdateTransactionsStatus | src/storage/StorageProvider.ts:459-465 | updates one after the other, all or nothing |
| OutputAllocation.Storage.Abort | src/storage/StorageProvider.ts:267-316 | fails the action found by its literal reference, or by txid, if it is outgoing and not yet shared |
| OutputAllocation.AbortsExactly | src/storage/StorageProvider.ts:267-305 | an action is aborted exactly when its literal reference, or its txid if the 64 characters are no reference of the user, names one transaction that is outgoing, unproven and not yet shared |
| OutputAllocation.FailingFreesExactly | src/storage/StorageProvider.ts:505-516 | failing a transaction frees exactly the outputs with spentBy set to it, and touches no other row |
| OutputAllocation.UpdateAllSucceedsExactly | src/storage/StorageProvider.ts:459-531 | a batch of status updates goes through exactly when every transaction in it is stored and may take the status as things stand before the batch |
| OutputAllocation.HoldsEndOnlyByFailureOrRelease | src/storage/StorageProvider.ts:478-531 | over any run of allocations, releases, status updates, aborts and inserts, a hold on an output ends only when its holder has failed or, before it is signed, gives the output back; completed and failed transactions stay so, and proven ones do not change |
| OutputAllocation.CompletedOutputsStaySpent | src/storage/StorageProvider.ts:498-501 | outputs of a completed transaction never become spendable again |
| OutputAllocation.NoDoubleAllocation | src/storage/StorageIdb.ts:299-303 | an output allocated twice was held by a transaction that has failed or given it back in between |
| OutputAllocation.NoOutputIsStranded | src/storage/StorageProvider.ts:478-531 | when transactions allocate for themselves, no output is ever held by a failed, missing or foreign transaction |
| BroadcastAdapter.NoteOutcome | src/storage/BroadcastStorageAdapter.ts:40-72 | the statuses, broadcast flag and history notes that an outcome calls for |
| BroadcastAdapter.OutcomeDecidesRequest | src/storage/BroadcastStorageAdapter.ts:48-72 | for each outcome, the status and broadcast mark of the request and the notes it gets; doubleSpend exactly when a result for the delivery's own txid says so |
| BroadcastAdapter.OutcomeDecidesTransactions | src/storage/BroadcastStorageAdapter.ts:48-79 | for each outcome, what becomes of the transactions: unproven, failed or sending if all of them may take it, unchanged otherwise |
| BroadcastAdapter.OnlyTerminalRejectionFails | src/storage/BroadcastStorageAdapter.ts:57-67 | no delivery but a terminal rejection fails a transaction or changes an output |
| BroadcastAdapter.Adapter.RecordBroadcastAttempt | src/storage/BroadcastStorageAdapter.ts:35-80 | skips recorded keys and finished requests, else records the outcome and updates the transactions all or nothing; an unknown request is an error |
| BroadcastAdapter.RedeliveryIsIdempotent | src/storage/BroadcastStorageAdapter.ts:35-80 | processing any deliveries, with other changes in between that keep settled requests settled, ends in the state reached by processing only the first delivery of each request's keys |
| BroadcastAdapter.RecordSettles | src/storage/BroadcastStorageAdapter.ts:94-96 | a delivery settles its key, nothing becomes unsettled, and a settled key is ignored |
| BroadcastAdapter.MinedRequestsAreFinal | src/storage/BroadcastStorageAdapter.ts:39-39 | an unmined or completed request is left untouched by every later delivery |
| BroadcastAdapter.KeyIsPerRequest | src/storage/BroadcastStorageAdapter.ts:94-96 | keys are recorded per request; an attempt throws exactly when some notified transaction is missing or may not take the status, and then it is recorded all the same, changes no transaction, and its key does nothing from then on |
| BroadcastAdapter.OutcomeReachesTransactions | src/storage/BroadcastStorageAdapter.ts:49-79 | the notified transactions all have the outcome's status after a delivery exactly when each is stored and may take it, or had it already; otherwise none changes |
| BroadcastAdapter.RejectionReleasesInputs | src/storage/BroadcastStorageAdapter.ts:57-79 | after a terminal rejection no output is held by the rejected transactions exactly when each is stored and may fail, or none held one before |
| BroadcastAdapter.AcceptedOutcomeIsLost | src/storage/BroadcastStorageAdapter.ts:35-80 | an accepted outcome whose request stands for an aborted transaction is lost: no transaction is updated, the request is unmined, and no later delivery makes up for it |
| BroadcastAdapter.AbortedRowBlocksTheOther | src/storage/BroadcastStorageAdapter.ts:35-80 | such an input: of two users' rows for one transaction one is aborted, and the other stays "sending" after every later delivery |
| TokenCodec.Writer.WriteVarIntNum | src/CWIStyleWalletManager.ts:1789-1796 | appends the variable-length integer encoding |
| TokenCodec.Writer.WriteArray | src/CWIStyleWalletManager.ts:1793-1796 | appends a length and the array |
| TokenCodec.Reader.ReadVarIntNum | src/CWIStyleWalletManager.ts:1866-1869 | reads a variable-length integer and advances |
| TokenCodec.Reader.ReadArray | src/CWIStyleWalletManager.ts:1866-1869 | reads a length and that many bytes |
| TokenCodec.VarIntInverts | src/CWIStyleWalletManager.ts:1793-1796 | a length below 2^64 is recovered from its encoding, whatever follows |
| TokenCodec.VarIntLayout | src/CWIStyleWalletManager.ts:1793-1796 | the encoding has 1, 3, 5 or 9 bytes by size, the first of the longer ones telling which |
| TokenCodec.SerializeToken | src/CWIStyleWalletManager.ts:1785-1853 | an error without an outpoint, otherwise the serialized layout |
| TokenCodec.DeserializeToken | src/CWIStyleWalletManager.ts:1858-1945 | the token of a version 1, 2 or 3 layout, or an error |
| TokenCodec.SerializedTokenRoundTrips | src/CWIStyleWalletManager.ts:1785-1945 | deserializing a serialized token gives back the token exactly for the supported layouts: profiles absent or non-empty, version 3 present exactly with KDF metadata |
| TokenCodec.FieldsInOrder | src/CWIStyleWalletManager.ts:561-586 | the eleven core fields come in one fixed order in both encodings |
| TokenCodec.VersionOneIsRead | src/CWIStyleWalletManager.ts:1858-1945 | the layout of version 1, without profiles and metadata, is read |
| TokenCodec.VersionTwoIsRead | src/CWIStyleWalletManager.ts:1858-1945 | the layout of version 2, without metadata, is read |
| TokenCodec.VersionThreeMayLackMetadata | src/CWIStyleWalletManager.ts:1858-1945 | a version 3 layout whose metadata flag is not set has no metadata |
| TokenCodec.OtherVersionsAreRefused | src/CWIStyleWalletManager.ts:1858-1945 | layouts of other versions are refused |
| TokenCodec.BuildTokenFields | src/CWIStyleWalletManager.ts:561-586 | the on-chain fields in order |
| TokenCodec.StripVerifiedSignature | src/CWIStyleWalletManager.ts:96-131 | removes a trailing field exactly if there are more than 11, it looks like a DER signature and verifies over the others |
| TokenCodec.SignaturesLookLikely | src/CWIStyleWalletManager.ts:82-94 | what looks like a signature has 8 to 80 bytes with the tag and length of DER, as DER signatures of that size do |
| TokenCodec.JoinedInOrder | src/CWIStyleWalletManager.ts:102-117 | what is verified is the bytes of all the fields in order |
| TokenCodec.StripsTheSignature | src/CWIStyleWalletManager.ts:96-131 | the appended signature is recognised and removed |
| TokenCodec.PublishedTokenRoundTrips | src/CWIStyleWalletManager.ts:561-768 | parsing the published fields gives back the token exactly for the supported layouts |
| TokenCodec.UnsignedFieldsRead | src/CWIStyleWalletManager.ts:698-768 | fields without a signature read the same unless the last one passes for one; fewer than 11 are no token |
| TokenCodec.UnverifiedSignatureBecomesProfiles | src/CWIStyleWalletManager.ts:698-731 | on a token without profiles and metadata a trailing field is taken for the profiles exactly when it does not verify as the signature |
| KeyWrapping.XorKeys | src/CWIStyleWalletManager.ts:1591-1601 | byte-wise exclusive or, an error for different lengths |
| KeyWrapping.XorLaws | src/CWIStyleWalletManager.ts:1591-1601 | it is commutative and undoes itself |
| KeyWrapping.XorIsBitwise | src/CWIStyleWalletManager.ts:1591-1601 | each bit of the result is set exactly if the two differ there |
| KeyWrapping.DerivationParameters | src/CWIStyleWalletManager.ts:215-245 | which derivation and parameters a token calls for, with the defaults |
| KeyWrapping.Manager.WrapKeys | src/CWIStyleWalletManager.ts:1084-1099 | a token with the root keys and factors wrapped, the factors under the number of the privileged key |
| KeyWrapping.Manager.UpdateAuthFactors | src/CWIStyleWalletManager.ts:1666-1779 | wraps anew, publishes from the default profile, replaces the token only if that succeeds, and returns to the active profile |
| KeyWrapping.Manager.ChangePassword | src/CWIStyleWalletManager.ts:1487-1515 | derives the new key from a fresh salt with the token's KDF (the configured one for a legacy token), and wraps anew under it and the factors recovered from the token; nothing changes if any step fails before publication |
| KeyWrapping.Manager.ChangeRecoveryKey | src/CWIStyleWalletManager.ts:1530-1553 | wraps anew under the new recovery key, with the other factors recovered from the token and the salt kept |
| KeyWrapping.Manager.ChangePresentationKey | src/CWIStyleWalletManager.ts:1558-1585 | refuses keys that are not 32 bytes, else wraps anew under the new presentation key, and remembers it only on success |
| KeyWrapping.Manager.AddProfile | src/CWIStyleWalletManager.ts:1355-1388 | refuses names in use; the profile enters memory before the token is updated |
| KeyWrapping.Manager.DeleteProfile | src/CWIStyleWalletManager.ts:1397-1429 | removes the profile from memory, leaves it if it was active, then updates the token |
| KeyWrapping.Manager.SwitchProfile | src/CWIStyleWalletManager.ts:1435-1482 | selects the default or an existing profile and builds its wallet from the root key and its pads |
| KeyWrapping.SwitchBuildsTheProfile | src/CWIStyleWalletManager.ts:1435-1482 | switching succeeds exactly for the default profile and stored ids; the wallet's key is the root key under the primary pad of the first profile with the id, and its key manager gets that profile's privileged pad |
| KeyWrapping.Manager.GetProfilePrivilegedKey | src/CWIStyleWalletManager.ts:1461-1474 | the profile's privileged key: the root one, converted back from a private key, with the profile's pad applied, or a length error |
| KeyWrapping.Manager.HandleNewUserPassword | src/CWIStyleWalletManager.ts:1059-1122 | wraps fresh keys, sets the token before it is funded and published, and fails if either fails |
| KeyWrapping.Manager.ProvideFactors | src/CWIStyleWalletManager.ts:1036-1056 | each login path unlocks the root keys from its two factors, loads the profiles and selects the active one; a factor that does not decrypt is an error |
| KeyWrapping.Manager.SetupRootInfrastructure | src/CWIStyleWalletManager.ts:1955-2029 | sets the root key and loads the token's profiles |
| KeyWrapping.Manager.SaveSnapshot | src/CWIStyleWalletManager.ts:1174-1206 | version 2 snapshots: key, active profile, encrypted root key and token |
| KeyWrapping.Manager.LoadSnapshot | src/CWIStyleWalletManager.ts:1213-1257 | versions 1 and 2; any error clears the state |
| KeyWrapping.Manager.Destroy | src/CWIStyleWalletManager.ts:796-808 | clears the state |
| KeyWrapping.WrapOpens | src/CWIStyleWalletManager.ts:1084-1099 | whatever the keys, the wrapped token opens under every pair of factors |
| KeyWrapping.NewUserSucceedsExactly | src/CWIStyleWalletManager.ts:1059-1122 | set-up succeeds exactly when the presentation key and the derived password key have 32 bytes and funding and publishing succeed |
| KeyWrapping.RootKeysSurviveEveryRun | src/CWIStyleWalletManager.ts:1042-1770 | after set-up and any factor and profile changes, successful or not, root primary is recovered from each of the three factor pairs, and root privileged, as a number, from recovery and password, from presentation and recovery, and from primary and password; its bytes are the original ones exactly if they do not start with a zero or no change has succeeded |
| KeyWrapping.ProfileKeyDerivesExactly | src/CWIStyleWalletManager.ts:1435-1482 | after any such run the wallet is that of the active profile, and a profile other than the default one can derive its privileged key, the root one under its privileged pad, exactly if the root one generated at set-up does not start with a zero byte |
| KeyWrapping.ConversionKeepsNumber | src/CWIStyleWalletManager.ts:1643-1648 | converting bytes to a private key and back keeps the number and drops leading zeros once |
| KeyWrapping.StepKeeps | src/CWIStyleWalletManager.ts:1666-1770 | every operation keeps the token wrapping the same root keys, as numbers, under what the user then knows |
| KeyWrapping.FactorsAreKnown | src/CWIStyleWalletManager.ts:1610-1659 | factors decrypted from the token are the user's, the privileged key without its leading zeros, whatever password is typed |
| KeyWrapping.ChangesSucceedExactly | src/CWIStyleWalletManager.ts:1487-1585 | with the right password each factor can be changed exactly if the new one has, or derives, 32 bytes and the new token can be published |
| KeyWrapping.RememberedKeyIsCurrent | src/CWIStyleWalletManager.ts:1558-1585 | the presentation key kept in memory is after any run the one that opens the token |
| KeyWrapping.FailedPublishKeepsToken | src/CWIStyleWalletManager.ts:1756-1766 | in any state, an operation whose publication fails reports an error and leaves the token in place |
| KeyWrapping.UpdateNeedsWallet | src/CWIStyleWalletManager.ts:1742-1754 | an update from the default profile is refused without a wallet |
| KeyWrapping.FailedReturnIsReported | src/CWIStyleWalletManager.ts:1768-1775 | when the active profile is not stored any more, an update reports that although it may have replaced the token |
| KeyWrapping.UnpublishedTokenIsStuck | src/CWIStyleWalletManager.ts:1104-1122 | if funding or the first publication fails, the manager is left with an unpublished token that no operation can replace |
| KeyWrapping.AddedProfileIsSavedExactlyWhenPublished | src/CWIStyleWalletManager.ts:1355-1388 | an added profile stays in memory in any case, and is in the token exactly if publishing succeeded |
| KeyWrapping.DeletedProfileIsSavedExactlyWhenPublished | src/CWIStyleWalletManager.ts:1397-1429 | a deleted profile is gone from memory in any case, and from the token exactly if publishing succeeded; the default profile becomes active exactly if the deleted one was |
| KeyWrapping.NamesStayDistinct | src/CWIStyleWalletManager.ts:1355-1388 | over every run no two profiles have the same name but for case, and none is called "default" |
| KeyWrapping.SavingSyncs | src/CWIStyleWalletManager.ts:1376-1386 | a successful profile update writes all profiles in memory, also those of an earlier failed one |
| KeyWrapping.LoginRestores | src/CWIStyleWalletManager.ts:1036-1163 | each login path restores the root key and the token's profiles |
| KeyWrapping.ProfileKeysFollowPads | src/CWIStyleWalletManager.ts:1451-1457 | two profiles have the same primary key exactly when they have the same pad |
| KeyWrapping.LegacyPasswordChangeWorksExactlyForLegacyKdf | src/CWIStyleWalletManager.ts:1487-1515 | on a token without KDF metadata the changed password opens the new token exactly if the configured KDF is PBKDF2 with 7777 rounds |
| KeyWrapping.SnapshotRoundTrips | src/CWIStyleWalletManager.ts:1174-1257 | loading a saved snapshot restores root key, token, profiles, active profile and its wallet, built from that profile's pads, when the token holds the profiles in memory |
| KeyWrapping.VersionOneSnapshotInverts | src/CWIStyleWalletManager.ts:1213-1257 | a version 1 snapshot gives back its root key and token, with the default profile |
| KeyWrapping.FailedLoadClears | src/CWIStyleWalletManager.ts:1213-1257 | other versions are refused, and a load that fails for any reason leaves nothing behind |
| KeyWrapping.SnapshotRestoresProfilesExactlyWhenSynced | src/CWIStyleWalletManager.ts:1174-1257 | loading restores the profiles exactly when the token holds the profiles in memory |

## Left out

- Asynchrony inside one posted transaction, one mined block and one storage call: each is one step, as if calls did not interleave; posting in particular is not protected by a database transaction in the source.
- HTTP clients, message queues, metrics, hit counters, logging, event emission, set-up code and wallet-interface forwarding: no property beyond passing values on.
- The contents of scripts, signatures and raw transactions: whether scripts verify is an input of posting.
- Real cryptography, UTF-8 and JSON: parameters with the laws named above; unpaired surrogates are outside the UTF-8 law.
- Private keys beyond their leading zeros: a key is taken to be a number below the order of the curve, which it is reduced to otherwise.
- The key manager's timed retention of the privileged key: it either has the key or asks for the password.
- Script encoding of the on-chain fields by PushDrop is not part of this model: publishing and decoding give the same list of fields.
- Reads beyond the end of a buffer: they are errors here, where the source continues with shorter or undefined values.
- IndexedDB rows that an index leaves out because a column is missing, and null as a requested value.
- Time-outs and expiry inside one cache call: expiry is a step of its own, or an argument of the call that notices it.
- The order of equal block indexes and of unmined transactions in query results: any order is allowed.
- History notes of a broadcast request carry no time stamps; two notes of the same millisecond are not merged.
- `createAction` outside of allocation and release: the marking of caller-named inputs, and of change of the same batch, is one more way to begin a hold.
- Fetching by HTTP and the contents of merkle paths: which raw transactions and proofs are served is an input of the BEEF build.
- `findOrInsert`, sync and purge operations of the storages, certificates, monitors and services: mostly single-row updates.
- Manifest fetching, originator normalisation, pact caching and permission modules: they decide whether a prompt is needed, not how waiters are settled.
- `syncUMPToken`, the lookups for a login token and the authentication-mode switches: the token found is part of the state that `Login` starts from.
- RateLimiter.SlidingIntervalBound: runs contain no reset, which starts a new window at once.
- RateLimiter.WindowBound: runs contain no reset.
- RequestQueues.EveryWaiterAccountedFor: for runs in which no hit grant ends; `AccountedExactlyWithoutOverlap` shows that these are all the runs in which it holds throughout.
- UtxoCache.UtxoCacheManager.GetUtxoStatus: of several live entries any one may answer; the source takes the one stored first.
- LedgerValue.ReachableLedgerBalances: no reorganisation tears out a spent coinbase; `TearingDownKeepsSpendsExactly` shows that such a one breaks the balance.
- ChainInvariant.MineReorgKeeps: mapped transactions are stored and unmined after the tear-down, as callers intend; the source places whatever it is given.
- TokenCodec.SerializedTokenRoundTrips: lengths stay below 2^64.
- KeyWrapping.RootKeysSurviveEveryRun: tokens carry KDF metadata, as new ones do; `LegacyPasswordChangeWorksExactlyForLegacyKdf` treats the others.
- KeyWrapping.SnapshotRoundTrips: profile ids have 16 and pads 32 bytes, as the manager generates them.
