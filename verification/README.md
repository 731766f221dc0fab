# The sharded round protocol, its hashes and its election, verified in Dafny

The system is a sharded blockchain simulator written in C. A generator submits
batches of transactions; the receiver puts them into a mempool and, when the
mempool holds a block's worth, elects a node for every shard and dispatches the
transactions to one worker process per shard. Worker 0 leads: it announces the
round, collects one summary from every follower, and assembles a block.

This project models that pipeline and proves what it is relied on for:

- **The round protocol.** `Protocol` is a transition system with any number of
  shards and any interleaving, in which the assigner may run any number of
  rounds ahead and summaries arrive in any order. An inductive invariant over
  channel contents and program counters (`ProtocolInvariant`) gives the main
  results: every summary in a block comes from a different shard's share of
  exactly that round, although a summary carries no round number; block totals
  equal what was drained and never overflow; nothing deadlocks and every run
  without new requests ends with all blocks finalised and all channels empty;
  no transaction is lost, duplicated or separated from its public key other
  than by a drain that discards. The loops of the source are methods, proved
  against functions that the steps of the transition system also use.
- **The hash.** `Blake3Compress` models `compress` word by word and proves its
  mixing a bijection; `Blake3Vector` proves the output it has in the BLAKE3 test
  vectors. `Blake3Tree` gives the hash of a whole input; `Blake3Chunk`,
  `Blake3Merge`, `Blake3Bytes` and `Blake3Hasher` prove that the incremental
  hasher computes it however the input is cut into pieces; `Blake3Domains`
  separates the calls for chunks, parents and the root; `Blake3Collision` reduces
  a collision of the hash to a collision of `compress` between two calls that the
  hasher makes (`Blake3Calls`; the methods keep a ghost record of every call). The
  tree, domain and collision results hold for every compression function.
  `Blake3Counter` gives the merge rule's mask in numbers, and `Blake3Shape` says
  exactly when the tree is that of the BLAKE3 paper.
- **The election.** Exact stake weighting, of picks and of random numbers, and
  when the winners are distinct.
- **Commitments and codecs.** What a shard root, a block root and a transaction
  hash bind; hexadecimal and struct layout round trips; leading zero bits.

Properties are about every input, every run, or every reachable state. A
property that fails in the source is stated with the exact condition under
which it holds, and with an input on which it fails:

- drains lose no transaction: `ProtocolBatching.FullBatchesDiscard`, with the
  receiver's default settings as the failing input (`DefaultsDiscard`);
- winners are distinct and keep their shards: `Election.WinnersDistinct` and
  `Election.WinnersKeepShards`, with `Election.TwoDrawsOneStake`;
- full batches are even over the shards: `Generator.BatchIsEven` for one batch
  and `Generator.TilesAreEven` for a range of them, with
  `Generator.NegativeBaseIsUneven`;
- the tree of the hash is that of the BLAKE3 paper:
  `Blake3Shape.SameShapeAsPaper`, failing from seven chunks on.

## Reading order

`Arithmetic`, `Wire`, `Routing`; then `Mempool`, `ShardAssigner`,
`ShardWorker`, `Election`, `Receiver`, `Generator` (the components); `Protocol`,
`ProtocolInvariant`, `ProtocolSafety`, `ProtocolProgress`,
`ProtocolConservation`, `ProtocolBatching` (the system); `Hex`,
`TransactionCodec`, `Commitment`; `Blake3Words` to `Blake3Shape`;
`TransactionHash` and `BlockContents`, where the hash, the codec, the
commitment and the protocol meet.

To verify the project, in this directory:

    dafny verify dfyconfig.toml --resource-limit 2000000 --verification-time-limit 0

## Assumptions

- A PUSH/PULL connection is a reliable FIFO queue per sender. A broadcast
  reaches every follower, in order (real PUB/SUB can drop messages, in
  particular before a subscriber has connected; start-up waits for that).
- A blocking receive on an empty queue is a step that is not enabled in
  `Protocol`, and a result `None` or an unfinished drain in the methods.
- SHA-256, signature verification and `rand` are parameters. So is the
  transaction hash, except in `TransactionHash` and `BlockContents`.
- A mempool operation is atomic; allocation succeeds.
- The host is little-endian: the source copies integers into the 64 hashed
  bytes and the 128 serialised bytes with `memcpy`, and `TransactionCodec`
  fixes their order.
- The parallel loop of `process_transactions` has independent iterations and a
  sum, and is modelled in index order.
- C's unsigned fields are `u32` and `u64` with explicit wrap-around, or
  bit-vectors in the hash.

## Where the source and its documentation disagree

The model follows the source.

- Transactions are routed by nonce modulo the shard count
  (src/shard_assigner.c:14-16), not by address prefix (README.md:58).
- A transaction is 128 bytes (include/transaction.h:48), not 112 (README.md:55).
- `mempool_drain` copies out a prefix and empties the pool (src/mempool.c:45-54):
  what lies beyond the prefix is thrown away. README.md:57 calls the mempool a
  queue.
- Workers verify signatures and ignore the result (src/shard_worker.c:138-141),
  so nothing here says that a block holds valid signatures.
- The leader stores summaries in arrival order (src/shard_worker.c:261). Totals
  do not depend on the order; the combined root does.
- The hash keeps the compression function and chunk chaining of BLAKE3, but its
  merge rule (src/blake3.c:213) builds another tree from seven chunks on, and
  every digest goes through one extra compression (src/blake3.c:271-279), so it
  is not BLAKE3.

## Model

| member | source | states |
|---|---|---|
| Routing.ShardOfNonce | src/shard_assigner.c:14-16 | shard i gets a transaction exactly when the shard count divides the distance from i up to its nonce |
| Routing.ForShardIsSubsequence | src/shard_assigner.c:88-98 | a shard's share is the order-preserving subsequence of exactly the drained entries whose nonce is routed to it |
| Routing.ForShardAppend | src/shard_assigner.c:88-98 | routing a concatenation is routing its parts: shares do not depend on what was drained elsewhere |
| Routing.SegmentReads | src/shard_assigner.c:66-108 | what a round puts on a channel can be read back: the header with round and shard count for shard 0 alone, the share in order, and an end marker with the round and the share's size |
| Routing.SharesAddUp | src/shard_worker.c:273-276 | over any order that visits every shard once, the share sizes sum to the drained count and the share fees to the drained fees |
| Routing.FeeSumBound | src/shard_worker.c:135-144 | the fees of a list of entries stay below 2^32 times its length |
| Mempool.EffectiveCapacity | src/mempool.c:5-15 | a capacity of 0 or above the maximum becomes the maximum, any other is kept |
| Mempool.Pool.constructor | src/mempool.c:5-15 | a new pool is empty and has the effective capacity |
| Mempool.Pool.Add | src/mempool.c:29-43 | succeeds exactly below capacity, then appends the transaction with its key (zeros for none); otherwise nothing changes |
| Mempool.Pool.Drain | src/mempool.c:45-54 | hands out the oldest min(count, max) pairs and leaves the pool empty, discarding the rest |
| Mempool.Pool.Size | src/mempool.c:56-61 | the number of entries |
| ProtocolBatching.ExactBelow | src/shard_assigner.c:80-82 | the number of entries to drain is the block size rounded down to a multiple of the shard count, or the shard count for a smaller block size |
| ShardAssigner.Assigner.constructor | src/shard_assigner.c:18-55 | starts before round 1 |
| ShardAssigner.Assigner.RouteOne | src/shard_assigner.c:89-97 | one more entry sent keeps every channel at its share and every counter at its size |
| ShardAssigner.Assigner.Route | src/shard_assigner.c:88-98 | after the loop every channel has gained exactly its share of the drained list |
| ShardAssigner.Assigner.CloseRound | src/shard_assigner.c:103-108 | every shard is sent an end marker with the size of its share |
| ShardAssigner.Assigner.BeginRound | src/shard_assigner.c:67-76 | counters are cleared, the round number grows by one, the header goes to the leader alone |
| ShardAssigner.Assigner.TakeFrom | src/shard_assigner.c:84-86 | the drained pairs are the prefix of the pool, which ends up empty |
| ShardAssigner.Assigner.Dispatch | src/shard_assigner.c:66-114 | one dispatch appends one round's segment to every channel and one done message, and empties the pool |
| ShardWorker.Framing | src/shard_worker.c:102-123 | draining from the head of a segment takes that round's transactions and end marker and leaves every later message alone |
| ShardWorker.StoreEntry | src/shard_worker.c:112-121 | storing an entry keeps what is buffered, also when both buffers are doubled |
| ShardWorker.BufferRound | src/shard_worker.c:94-123 | the receive loop computes the drain function of the queue it finds |
| ShardWorker.HashRound | src/shard_worker.c:131-144 | the fee sum modulo 2^64 and every transaction hash |
| ShardWorker.FoldHashes | src/shard_worker.c:146-154 | the fold over the hashes is the recursive chain from 32 zero bytes |
| ShardWorker.RoundOfThree | src/shard_worker.c:125-284 | a round of any three transactions over two shards written out: the messages of both channels, both summaries, and the block with its hashes nested from 32 zero bytes |
| ShardWorker.NumbersWithoutHeaders | src/shard_worker.c:220-227 | a leader that never sees a header numbers its rounds one after the other |
| ShardWorker.ProcessTransactions | src/shard_worker.c:89-164 | from the head of the queue: the summary of exactly the drained entries, or blocked; an empty round gives zeros |
| ShardWorker.CollectSummaries | src/shard_worker.c:247-263 | waits for exactly n-1 summaries and stores them behind the leader's own in arrival order |
| ShardWorker.AssembleBlock | src/shard_worker.c:266-284 | the block holds the sums modulo 2^32 and 2^64 and the hash of the concatenated roots |
| Receiver.PbRoundTrip | src/receiver.c:78-94 | decoding what the generator encodes gives the transaction and its key back |
| Receiver.DecodedFields | src/receiver.c:78-94 | for a message of any shape: integers are taken over, an address or key is taken byte by byte or is zero if too short, a short signature is padded with zeros |
| Receiver.AdmittedAppend | src/receiver.c:161-177 | admission looks at each entry by itself, in order |
| Receiver.IntakeFills | src/receiver.c:178-181 | intake appends the first admitted entries up to the capacity and drops the rest |
| Receiver.Process.IntakeOutcome | src/receiver.c:168-181 | without `--verify` nothing is rejected and the batch is taken in as far as it fits; with it the rejected are those that fail the check, and the others are taken in, in order, as far as they fit |
| Receiver.IntakeBatch | src/receiver.c:161-182 | intake only appends and never exceeds the capacity |
| Receiver.IntakeTakesAll | src/receiver.c:178-181 | with room for the whole batch every admitted transaction is taken, in order |
| Receiver.Process.Intake | src/receiver.c:157-182 | the loop computes that outcome in terms of the two settings, verify and check; the two counts are the taken and the refused entries |
| Receiver.SetupNodes | src/receiver.c:45-53 | as many different nodes as shards, with stakes between 100 and 999 |
| Receiver.Process.RunElection | src/receiver.c:55-73 | nodes are reset, then every shard gets a winner: the winners are all the nodes in some order, and winner s has shard id s and the winner role |
| Receiver.Process.ElectAndDispatch | src/receiver.c:55-76 | an election never prevents the dispatch, which sends one round |
| Receiver.Process.HandleBatch | src/receiver.c:154-192 | one request: intake with that outcome, then one round sent and an empty pool if the block size is reached, otherwise no message at all |
| Election.Node.constructor | src/node.c:6-15 | a node starts as an idle validator without a shard |
| Election.Node.AssignShard | src/node.c:21-24 | sets the shard and the role, nothing else |
| Election.SelectInterval | src/election.c:25-31 | a pick elects node n exactly when it lies in the interval of the cumulated stakes that belongs to n |
| Election.DrawInterval | src/election.c:19-31 | a random number below the total stake elects node n exactly when it lies in the interval of the cumulated stakes that belongs to n |
| Election.DrawPeriod | src/election.c:19-31 | winners repeat in the random number with the total stake as period |
| Election.ExactShare | src/election.c:19-31 | of any consecutive random numbers, as many as the total stake, exactly the stake of n elects an unused node n, and none a used one |
| Election.ExactWeight | src/election.c:18-31 | an unused node is elected by exactly as many picks below the total as it has stake, a used one by none |
| Election.DrawIsFresh | src/election.c:19-31 | a draw with stake left elects an unused node with stake; without, it falls back to node 0 |
| Election.FreshDraws | src/election.c:18-36 | from any set of used nodes: all draws are fresh exactly when there are at most as many as unused nodes with stake, or one more and node 0 is unused without stake |
| Election.WinnersDistinct | src/election.c:18-36 | the winners are pairwise distinct exactly when at most as many are drawn as nodes have stake, or one more and node 0 has none, whatever the random numbers |
| Election.WinnersArePermutation | src/receiver.c:55-68 | with stakes of at least 1 and as many shards as nodes the winners are all the nodes in some order |
| Election.WinnersKeepShards | src/election.c:33-35 | for every sequence of random numbers: the winner of shard s holds shard id s for every s exactly when at most as many are drawn as nodes have stake, or one more and node 0 has none; every winner has the winner role |
| Election.SoundElection | src/receiver.c:55-73 | with positive stakes and as many shards as nodes the winners are all the nodes and each holds its own shard |
| Election.TwoDrawsOneStake | src/election.c:23-36 | two draws from stakes 1 and 0 elect a node twice, whatever the random numbers |
| Election.SetupStake | src/receiver.c:48 | a node's stake lies between 100 and 999 |
| Election.SetupStakes | src/receiver.c:48 | 900 consecutive random numbers give the stakes 100 to 999 one after the other, and then they repeat |
| Election.SetupIsSound | src/receiver.c:45-53 | such stakes of at most 256 nodes cannot overflow the total |
| Election.TotalStake | src/election.c:19-21 | the first loop sums the unused stakes modulo 2^64 |
| Election.Scan | src/election.c:25-31 | the second loop finds the selected node, or node 0 |
| Election.ElectOne | src/election.c:19-35 | one iteration marks, assigns and records one winner and touches no other node |
| Election.ElectWinners | src/election.c:7-40 | refused exactly for no nodes, no shards or too few nodes; otherwise the winners, ids and roles of the draws |
| Generator.TilesPartition | main.c:106-167 | every position of the range lies in exactly one batch |
| Generator.TileNotEmpty | main.c:106-167 | no batch is empty |
| Generator.FillBatch | main.c:164-179 | a batch holds the nonces of its tile in order |
| Generator.NoncesFollow | main.c:173 | nonces of a batch follow one another modulo 2^64 |
| Generator.ShareOfConsecutive | src/shard_assigner.c:14-16 | a shard's share of consecutive nonces is a difference of two counts of remainders |
| Generator.BatchIsEven | src/shard_assigner.c:14-16 | a batch of a multiple of n nonces is even over n shards exactly when it does not wrap, or n divides 2^64, or n divides the number of nonces before the wrap |
| Generator.TilesAreEven | main.c:164-173 | with n dividing the batch size, all full batches of a range are even exactly when the base nonce is not negative, or too negative for a full batch to reach 0, or n divides 2^64 or the base |
| Generator.TileIsEven | main.c:164-173 | a full batch of the range is even exactly when its first nonce allows it |
| Generator.NegativeBaseIsUneven | main.c:164-173 | three shards, batches of three and base nonce -2: the first batch is not even |
| Generator.EvenAppend | src/shard_assigner.c:80-82 | even batches in any arrangement make an even list |
| Protocol.SameHistory | src/receiver.c:154-192 | no step but a request takes entries in, drains the pool or opens a round |
| ProtocolInvariant.InitInv | src/shard_worker.c:205-207 | the invariant holds at the start |
| ProtocolInvariant.NextMessage | src/shard_worker.c:102-123 | the first message a worker has not consumed is the next one of its round's segment |
| ProtocolInvariant.RequestKeepsInv | src/receiver.c:187-188 | a request, with or without the start of a dispatch, keeps the invariant |
| ProtocolInvariant.AssignerKeepsInv | src/shard_assigner.c:88-114 | every send of the assigner keeps the invariant |
| ProtocolInvariant.HeaderKeepsInv | src/shard_worker.c:208-227 | the leader's idle receive keeps the invariant |
| ProtocolInvariant.LeaderDrainKeepsInv | src/shard_worker.c:242 | one receive of the leader's drain keeps the invariant |
| ProtocolInvariant.FollowerDrainKeepsInv | src/shard_worker.c:358 | one receive of a follower's drain keeps the invariant |
| ProtocolInvariant.CollectKeepsInv | src/shard_worker.c:255-263 | a summary taken from any follower is that of the current round |
| ProtocolInvariant.FinalizeKeepsInv | src/shard_worker.c:266-313 | the assembled block is that of its round |
| ProtocolInvariant.StepKeepsInv | src/shard_worker.c:207-364 | every step of every process keeps the invariant |
| ProtocolInvariant.ReachableInv | src/shard_worker.c:207-364 | the invariant holds in every reachable state |
| ProtocolSafety.SummariesAreOfTheRound | src/shard_worker.c:252-263 | while block r is assembled, the stored summaries come from different shards, each computed from exactly its share of the r-th drained list |
| ProtocolSafety.IdleReceiveIsHeader | src/shard_worker.c:207-227 | the leader's idle receive always finds the header of the next round, with that round's number and the shard count, so its two fallback branches are never taken |
| ProtocolSafety.AnnouncementReachesAll | src/shard_worker.c:234-237 | an announcement gives every follower exactly one round to drain, that of the next block, and finds it waiting with all earlier rounds drained |
| ProtocolSafety.FollowersInStep | src/shard_worker.c:346-364 | a follower has drained as many rounds as there are blocks, or one more, and has at most the next round announced |
| ProtocolSafety.BlockTotals | src/shard_worker.c:266-276 | the k-th block is numbered k modulo 2^32 (1, 2, 3, ...); it holds the length and the fee sum of the k-th drained list, and neither field overflows |
| ProtocolSafety.BlockRoot | src/shard_worker.c:278-282 | a block root hashes the roots of all shares of its round in arrival order, the leader's first |
| ProtocolSafety.DispatchRun | src/shard_assigner.c:66-114 | run without interruption the assigner's steps do to the channels what the dispatch method does |
| ProtocolSafety.FollowerRunDrains | src/shard_worker.c:346-364 | run without interruption a follower's drain steps compute what the drain method computes |
| ProtocolSafety.LeaderRunDrains | src/shard_worker.c:241-242 | so do the leader's, whose own summary then comes first |
| ProtocolSafety.CollectRun | src/shard_worker.c:247-284 | for every order in which the reports arrive, the leader's collect and finalise steps assemble the block that the collecting and assembling methods make of them |
| ProtocolProgress.NoDeadlock | src/shard_worker.c:207-364 | while a dispatch is under way or a dispatched round has no block, some step other than a request is enabled |
| ProtocolProgress.StepDecreases | src/shard_worker.c:207-364 | every step other than a request strictly lowers a measure of the remaining work |
| ProtocolProgress.ScheduleIsBounded | src/shard_worker.c:207-364 | a schedule without requests is no longer than the measure |
| ProtocolProgress.AllFinalizedIsQuiet | src/shard_worker.c:207-364 | when every dispatched round has its block all channels are empty and all workers wait |
| ProtocolProgress.MaximalScheduleFinishes | src/shard_worker.c:207-364 | every schedule without requests that cannot go on has finalised every round and emptied every channel |
| ProtocolProgress.CanFinish | src/shard_worker.c:207-364 | from every state of the invariant such a schedule exists |
| ProtocolConservation.SharesPartition | src/shard_assigner.c:88-98 | the shares of a drained list are a partition of it, as multisets |
| ProtocolConservation.InFlightIsShare | src/shard_worker.c:102-123 | what is unsent, on the channel, buffered or summarised for a shard is exactly its share of the open rounds |
| ProtocolConservation.Conservation | src/receiver.c:161-188 | accepted entries, keys included, are those in blocks, in flight, in the pool and discarded, as multisets |
| ProtocolBatching.KeepsWholePool | src/shard_assigner.c:80-86 | a dispatch discards nothing exactly when the pool holds the block size and n divides it, or holds at most n entries for a block size below n |
| ProtocolBatching.StepDiscards | src/shard_assigner.c:80-86 | with batches of at most B and room for them, one step keeps the pool below the block size, drops nothing at intake, and discards at most B-1 + blockSize mod n if it dispatches and nothing otherwise |
| ProtocolBatching.DiscardBound | src/shard_assigner.c:80-86 | over a whole run: the pool stays below the block size, every admitted transaction is accepted, and the discards are at most that bound times the number of dispatches |
| ProtocolBatching.FullBatchesDiscard | src/mempool.c:45-54 | with full accepted batches of B dividing the block size, whatever their nonces: each dispatch discards exactly blockSize mod n (nothing if the block size is below n), so nothing is ever discarded exactly when nothing is dispatched, n divides the block size, or the block size is below n |
| ProtocolBatching.DefaultsDiscard | src/receiver.c:33-40 | with the default 48 shards and block size 256 the first 256 transactions lose 16 |
| ProtocolBatching.RangeGivesEvenTiles | main.c:164-173 | the full batches of a range with a suitable base nonce are even batches of the protocol |
| ProtocolBatching.FullBatchesShareEvenly | src/shard_assigner.c:88-108 | if moreover n divides B and the batches are even tiles of a nonce range, every shard gets an equal share of every round and nothing is discarded |
| Hex.ParsePrinted | src/common.c:86-132 | parsing printed bytes gives the bytes |
| Hex.PrintParsed | src/common.c:86-132 | printing what was parsed gives the lower-case form of the string |
| Hex.ParseRejects | src/common.c:94-132 | parsing fails exactly for an odd length or a character other than 0 to 9, a to f, A to F |
| Hex.HexDigits | src/common.c:94-99 | the digits are exactly 0 to 9, a to f and A to F |
| Hex.DigitOrder | src/common.c:94-99 | their values increase in the order of the lower-case characters |
| Hex.ParseIgnoresCase | src/common.c:94-132 | a string and its lower-case form parse alike |
| Hex.PrintedNumber | src/common.c:86-92 | the printed form read in base 16 is the bytes read as one big-endian number |
| Hex.BytesToHexBuf | src/common.c:86-92 | the loop writes the printed form and a terminator, and nothing behind it |
| Hex.HexToBytesBuf | src/common.c:123-132 | succeeds exactly when the first 2n characters parse, and then holds the parsed bytes |
| Hex.HexToBytes | src/common.c:101-121 | null exactly for what does not parse |
| Hex.LeadingZerosBracket | src/common.c:169-185 | the big-endian value lies below 2^(8n-z), and not below 2^(8n-z-1) unless it is zero |
| Hex.AllZero | src/common.c:169-185 | z is 8n exactly when every byte is zero |
| Hex.CountLeadingZeros | src/common.c:169-185 | the nested loops compute z |
| TransactionCodec.DecodeLayout | include/transaction.h:33-48 | every transaction survives its 128-byte layout |
| TransactionCodec.EncodeLayout | include/transaction.h:33-48 | every 128 bytes are the layout of the transaction read from them |
| TransactionCodec.FieldOffsets | include/transaction.h:35-43 | every field lies at its offset in the packed struct, and the first 64 bytes are the hashed ones |
| TransactionCodec.ByteWeight | include/transaction.h:35-43 | byte j of an integer field is the digit of weight 256^j |
| TransactionCodec.MessageSizes | include/block.h:12-34 | the three sizes by which a receiver tells messages apart are the sums of the sizes of their fields |
| TransactionCodec.DeserializeSerialized | src/transaction.c:245-262 | deserializing a serialized transaction gives it back |
| TransactionCodec.SerializeDeserialized | src/transaction.c:245-262 | serializing an accepted string's transaction gives its lower-case form |
| TransactionCodec.DeserializeRejects | src/transaction.c:249-262 | rejected exactly when not 256 characters, each 0 to 9, a to f or A to F |
| TransactionCodec.DeserializeHex | src/transaction.c:249-262 | the method computes the parsed transaction or null |
| TransactionCodec.HashedBytesBind | src/transaction.c:112-122 | the 64 hashed bytes agree exactly for transactions that differ at most in the signature |
| TransactionCodec.HashBuffer | src/transaction.c:112-122 | the advancing offset fills the buffer with the 64 hashed bytes |
| TransactionHash.ComputeHash | src/transaction.c:112-125 | the method returns the first 28 bytes of the hash of those bytes |
| TransactionHash.TxHashIsTwoCalls | src/transaction.c:112-125 | a transaction hash is the first 28 bytes of two nested compressions: of the 64 bytes as the only block of a chunk, and of the result padded with zeros |
| TransactionHash.TruncatedBinds | src/transaction.c:124 | different inputs with one 28-byte digest break the compression function: a collision, or root calls agreeing on 28 bytes |
| TransactionHash.TxHashBinds | src/transaction.c:112-125 | one transaction hash means one transaction up to its signature, or a break of the compression function |
| TransactionHash.TxHashIgnoresSignature | src/transaction.c:113 | the signature does not influence the hash |
| Commitment.ChainBinds | src/shard_worker.c:146-154 | two different lists of transaction hashes with one shard root exhibit a collision of the hash function, or a 60-byte input that hashes to zeros |
| Commitment.ChainInputsAre60Bytes | src/shard_worker.c:150-153 | only 60-byte texts are hashed for a shard root |
| Commitment.BlockRootBinds | src/shard_worker.c:278-282 | for one shard count a block root binds every shard's list, in stored order, or the hash function is broken |
| Commitment.SameRootSameHashes | src/shard_worker.c:266-284 | two blocks of any two runs with one root agree on all transaction hashes, or the hash function is broken on texts hashed for them |
| Commitment.RootShowsOrder | src/shard_worker.c:261-282 | one round assembled in two arrival orders has one root only if the lists agree position by position, and only for the same order if the shards' lists differ, or the hash function is broken |
| BlockContents.SameHashesSameUnsigned | src/shard_worker.c:142-144 | lists with the same transaction hashes hold the same transactions up to signatures and keys, or the transaction hash is broken on them |
| BlockContents.SameRootSameTransactions | src/shard_worker.c:266-284 | two blocks of any two runs with one root hold the same transactions up to signatures and keys, shard by shard in arrival order, or one of the two hash functions is broken |
| Blake3Words.RootsOfPrimes | src/blake3.c:10-13 | the eight initial words are the fractional parts of the square roots of the first eight primes, in order, to 32 bits |
| Blake3Words.LoadStore | src/blake3.c:37-47 | loading the four bytes of a word gives the word |
| Blake3Words.StoreLoad | src/blake3.c:37-47 | storing a loaded word gives the four bytes |
| Blake3Words.WordsOfBytes | src/blake3.c:37-47 | any number of stored words is loaded back |
| Blake3Words.BytesOfWords | src/blake3.c:37-47 | any number of loaded words is stored back |
| Blake3Compress.ScheduleStep | src/blake3.c:22-31 | each row of the schedule is one fixed permutation of the row before it (section 2.2 of the BLAKE3 paper) |
| Blake3Compress.GInPlace | src/blake3.c:49-58 | the eight updates of g change its four places only, as a function of their old values |
| Blake3Compress.GInverse | src/blake3.c:49-58 | g is a bijection of the state, with an explicit inverse |
| Blake3Compress.RoundInPlace | src/blake3.c:60-74 | a round is its eight applications of g |
| Blake3Compress.RoundInverse | src/blake3.c:60-74 | a round is a bijection for every message |
| Blake3Compress.MixInPlace | src/blake3.c:91-93 | the loop applies the seven rounds |
| Blake3Compress.MixInverse | src/blake3.c:91-93 | the seven rounds are a bijection for every message |
| Blake3Compress.LoadBlock | src/blake3.c:86-89 | the message is the block's sixteen words |
| Blake3Compress.FeedForward | src/blake3.c:95-98 | the halves are folded as specified, although both are updated in one loop |
| Blake3Compress.Compress | src/blake3.c:76-101 | the method computes the sixteen output words |
| Blake3Compress.CounterInState | src/blake3.c:79-84 | the initial state carries the counter in two halves, low half first, then the length, then the flags |
| Blake3Vector.RoundOfSquare | src/blake3.c:60-74 | for every state and message: a round is g on the four columns of a 4 by 4 square and then on its four diagonals, that is on the columns of the square with row i turned by i |
| Blake3Vector.PublishedOutput | src/blake3.c:76-101 | compressing the 64 bytes 0 to 63 with the flags of a single block gives the first 64 bytes that the BLAKE3 test vectors publish for that input |
| Blake3Compress.FullBinds | src/blake3.c:76-101 | with chaining value and block fixed, the full output determines length, counter and flags |
| Blake3Chunk.ChunkState.constructor | src/blake3.c:120-127 | a new chunk state stands for no bytes |
| Blake3Chunk.ChunkState.FlushBlock | src/blake3.c:139-145 | compressing a full block buffer keeps what the state stands for |
| Blake3Chunk.ChunkState.Update | src/blake3.c:137-154 | the state stands for the bytes given so far, however they were cut |
| Blake3Chunk.ChunkState.Output | src/blake3.c:156-161 | the output is the chaining value of those bytes; the calls of compress made for it are exactly those the value is defined by |
| Blake3Bytes.StoreWords | src/blake3.c:198-202 | words are stored one after the other and nothing else changes |
| Blake3Bytes.StoreSlot | src/blake3.c:198-203 | a value stored above the others leaves them as they are |
| Blake3Bytes.LoadSlot | src/blake3.c:205-210 | a stored value is read back |
| Blake3Bytes.WriteDigest | src/blake3.c:281-292 | the two output loops write the digest of any length |
| Blake3Bytes.DigestPrefix | src/blake3.c:281-292 | a short digest is a prefix of the hash and the hash is a prefix of a long one |
| Blake3Bytes.DigestTail | src/blake3.c:286-292 | behind the hash, byte i is byte i mod 32 changed by the two low bytes of i |
| Blake3Merge.CounterParity | src/blake3.c:213 | the low bit of the 64-bit chunk counter is the parity of the number of chunks, wrap-around included |
| Blake3Counter.LowBitsMeaning | src/blake3.c:213 | for up to 64 bits: the masked counter is zero exactly when 2^n divides the number of chunks, wrap-around included |
| Blake3Counter.MaskIsShift | src/blake3.c:213 | the mask is one shifted by the stack size, less one |
| Blake3Merge.MergeAddsChunk | src/blake3.c:212-223 | after any number of full chunks the stack is the tree of all of them, or the tree of all but the last and the last |
| Blake3Merge.Stack | src/blake3.c:198-223 | the stack never holds more than two values |
| Blake3Merge.FoldCompletes | src/blake3.c:260-269 | folding the last chunk onto that stack gives the tree of the whole input |
| Blake3Calls.MergeCallsAddChunk | src/blake3.c:212-223 | the merge loop makes exactly the parent calls by which the calls behind the stack grow |
| Blake3Calls.FoldCallsComplete | src/blake3.c:260-269 | folding makes exactly the parent calls still missing from the tree |
| Blake3Hasher.JoinParents | src/blake3.c:163-173 | the method computes the parent of two values |
| Blake3Hasher.Hasher.constructor | src/blake3.c:176-183 | a new hasher stands for no bytes |
| Blake3Hasher.Hasher.PushCv | src/blake3.c:198-203 | pushes one value |
| Blake3Hasher.Hasher.PopCv | src/blake3.c:205-210 | pops the value pushed last |
| Blake3Hasher.Hasher.AddChunkCv | src/blake3.c:212-223 | the loop applies the merge rule to the stored stack, with the calls the rule prescribes |
| Blake3Hasher.Hasher.FlushChunk | src/blake3.c:229-240 | turning a full chunk buffer into a value on the stack keeps what the hasher stands for |
| Blake3Hasher.RepresentsFlushed | src/blake3.c:229-240 | turning a full buffer into a value on the stack leaves fields that stand for the same bytes |
| Blake3Hasher.RepresentsFolded | src/blake3.c:252-269 | folding what is buffered onto the stack gives the tree of all bytes the fields stand for, and the calls it is defined by |
| Blake3Hasher.Hasher.Update | src/blake3.c:225-249 | the hasher stands for the bytes given so far, however they were cut |
| Blake3Hasher.Hasher.FoldAll | src/blake3.c:252-269 | the last chunk folded onto the stack is the tree of all bytes, and the hasher is not changed |
| Blake3Hasher.CompressRoot | src/blake3.c:271-279 | the final compression of the tree's value, a call that no tree makes |
| Blake3Hasher.Hasher.Finalize | src/blake3.c:251-293 | the digest is that of all bytes given; nothing but the output changes; the calls of compress made since the start are exactly those of the hash of these bytes |
| Blake3Hasher.HashPieces | src/blake3.c:225-293 | every way of cutting an input into pieces gives the digest of their concatenation, by the same calls |
| Blake3Hasher.Truncated | src/blake3.c:296-309 | the one-shot functions give the digest of the input |
| Blake3Domains.RootIsNoTreeCall | src/blake3.c:133-173 | no call of compress made for the tree of any input, under any compression function, is a root call |
| Blake3Domains.ParentIsNoChunkCall | src/blake3.c:156-173 | no call made for a chunk is a parent call |
| Blake3Domains.RootIsNoParent | src/blake3.c:163-279 | no root call is a parent call |
| Blake3Domains.ChunkCallFlags | src/blake3.c:133-161 | calls for a chunk carry the flags of start and end and no others |
| Blake3Domains.ThreeBlocks | src/blake3.c:133-161 | a chunk of three blocks written out: chaining, lengths and flags 1, 0 and 2, the last block padded with zeros |
| Blake3Domains.TwoChunks | src/blake3.c:163-223 | an input of two chunks written out: counters 0 and 1 and one parent call |
| Blake3Domains.RootOf | src/blake3.c:271-284 | the hash is one more compression of the tree value padded with zeros, with length 32 and flag 8 |
| Blake3Domains.HashOfBlock | src/blake3.c:225-293 | an input of exactly 64 bytes is hashed by two calls |
| Blake3Collision.ChainBinds | src/blake3.c:137-145 | different block chains with one chaining value exhibit a collision of the compression function |
| Blake3Collision.ChunkBinds | src/blake3.c:156-161 | different chunks with one chaining value, whatever their counters, exhibit such a collision |
| Blake3Collision.GroupBinds | src/blake3.c:212-223 | so do different groups of one or two chunks |
| Blake3Collision.TreeBinds | src/blake3.c:212-269 | so do different inputs with one tree value, of whatever two shapes |
| Blake3Collision.HashBinds | src/blake3.c:251-284 | different inputs with one 32-byte hash exhibit a collision between a call of compress that hashing the one makes and a call that hashing the other makes |
| Blake3Shape.TreeHasShape | src/blake3.c:212-223 | the tree's value is that of the shape the merge rule builds, chunk by chunk with their counters |
| Blake3Shape.SameShapeAsPaper | src/blake3.c:212-223 | that shape is the one of section 2.1 of the BLAKE3 paper exactly for up to six chunks |

## Left out

- ZMQ sockets, ports, high-water marks, time-outs and sleeps; see Assumptions for what stands in their place.
- OpenSSL, wallets and key files; signature verification is a parameter.
- The protobuf encoding of a batch: intake starts from decoded messages. A request that is no batch, or does not unpack, changes nothing in the pool and is not modelled.
- Keyed hashing: the key is stored and never used.
- A collision theorem for digests shorter than 28 bytes, or for keyed hashing.
- Independence of the combined root from the arrival order: the source does not provide it.
- More than 64 shards: the receiver accepts up to 256, the assigner refuses to be created above 64.
- Timestamps, latencies, TPS, CSV output, signal handlers, logging and benchmark counters.
- `int` overflow in the generator's batch count and positions, its threads, and transactions that fail to be created.
- The quality of `rand`, and the modulo bias of a pick: `Election.ExactShare` is exact for any run of random numbers as long as the total stake, and the range of `rand` need not be a multiple of it.
- Mutexes, memory release, and the growth limit of the receive buffers (a 32-bit capacity).
- Ownership of transactions: a transaction is a value here, so its destruction after dispatch is not modelled.
- Blake3Chunk.ChunkState.Update: requires at most 256 blocks, because the count of compressed blocks is a byte; its two callers never pass more than one chunk.
- Election.ExactWeight: requires a total below 2^64, which the receiver's setup guarantees; so do `DrawInterval`, `DrawPeriod` and `ExactShare`.
- The `main` loops of leader and follower have no method of their own: their bodies are the steps of Protocol, and the functions they call are methods.
