# Verified model of the melnode chain core

This project models the part of melnode (the Mel full node) that decides which block may extend
the chain, stores it, rebuilds historical state, serves blocks to peers and syncs from them, and it
proves what a maintainer relies on: agreement between nodes, exact reconstruction of state,
crash safety, no lost wake-ups, termination of the sync and of the transaction flood.

`dafny verify dfyconfig.toml` checks everything (Dafny 4.11).

| file | content |
|---|---|
| `Ledger.dfy` | blocks, states, stake documents, the state transition function |
| `Quorum.dfy` | the three vote counts, the 2/3 threshold, the tally as written |
| `Tables.dfy` | the SQLite tables as values; `apply_block` as one atomic function, `ApplyOutcome` |
| `Chain.dfy` | the invariant of a store; the stakes index against block-by-block evolution |
| `Growth.dfy` | what appending and truncating keep; immutability of historical reads |
| `Replay.dfy` | replay, the self test, handing stored blocks on |
| `Agreement.dfy`, `Fork.dfy` | networks of stores with faulty keys and crashes; exactly when the written tally lets them fork |
| `Mempool.dfy`, `Flood.dfy` | the mempool class; one transaction flooding a network |
| `Storage.dfy` | the imperative `Storage` class |
| `Machine.dfy`, `Interleaving.dfy`, `Runs.dfy` | the node in small steps; its invariant; theorems over all runs |
| `Alone.dfy` | progress of every task; a call that runs alone does what the atomic operation does |
| `Cluster.dfy` | agreement between nodes that run in small steps |
| `Staker.dfy` | gathering signatures for a decided block |
| `Batch.dfy`, `Sync.dfy` | the batch server and both sync clients |

## How the source is modelled

- The external transition function is left arbitrary in `Rules`: `advance` (coins, pools, history and
  fees, as one digest), `admits` (which stake transactions it accepts in an epoch) and `verify`
  (signatures) are function values, so every theorem holds for all of them. Fixed are only its
  stake steps: expire, then add the admitted stakes. It has the same height and network gate as the
  storage.
- Assumed of external code: `StakeSet::unlock_old(e)` drops the stakes with `e_post_end <= e`; a
  vote of a key is the sum of its documents with `e_start <= e < e_post_end`; the stake tree is
  enumerated in an order fixed by its content; an epoch is 200000 blocks; hashes are injective, so
  `stakes_hash` is modelled by the stake map itself and a header hash by the header; a failing
  `apply_tx` leaves the provisional state as it was.
- The build sets `panic = "abort"` and `overflow-checks = true` (`Cargo.toml:8-16`). A failed
  assertion or `expect` and an overflow therefore end the process: outcome `Aborted`, or the flag
  `dead` of the machine. 128-bit amounts overflow in the vote count, 64-bit ones in `vote_weights`.
- A crash may lose any suffix of committed SQL transactions and any part of the unflushed Merkle
  nodes. A block's root digest stands for the nodes below it.
- Maps are cut down by subtraction and transformed by `MapValues`. Map comprehensions are not used:
  Dafny 4.11 gives them values outside their domains, from which two comprehensions that are equal as
  maps but read different sources yield a contradiction.
- Readers that see a changing store are given `views: nat -> Tables`, the committed tables at the
  time of each of their reads. `Runs.LooksAreGrowing` shows that every run provides such views.

## Findings

- **Vote tally.** `src/storage/storage.rs:288` adds the running total instead of the document's own
  stake. `WrittenSoundIff` says exactly on which electorates the written loop decides like the signed
  stake. Agreement needs less: `WrittenSafeIff` says exactly on which electorates any two written
  quorums share a good key (the last signer holds more than a third and no quorum can do without
  it), and `HistoriesAgree` proves agreement of the code as written on those. `ForkIff` shows that
  on top of any chain that honest keys brought about, where there are two next blocks to sign, two
  nodes can come to differ under a bad minority if and only if the electorate is not one of them, and `SmallStakerForks` is a run in which the key
  with 1 of 101 certifies two different first blocks alone.
- **Stake rows.** The comment at `src/storage/storage.rs:330` admits that the storage only
  approximates stake validation. `IndexRefinesReplayIff` says exactly when that is harmless: each
  stake transaction that writes a row is admitted by the transition function just when its document
  has not expired (`BlockFits`). A block that breaks this is committed, then the process aborts on
  rereading it (`ApplyExact`), and from then on every call aborts (`MisfitIsFatal`). `MisfitExists`
  is such a block: its stake has already started.
- **Weight map.** `Weights64ExactIff`: the 64-bit weights are right if and only if each key's stake
  fits in 64 bits. `LargeStakesMiscount`: a stake of 2^64 counts as nothing, and two smaller ones of one
  key stop the process.
- **Unverified signatures.** The staker counts the keys it has gathered signatures of without
  verifying any. `SubmittedProofExact` says exactly when the storage then refuses the proof for its
  votes, and in `JunkEndsGathering` one reply with worthless signatures brings that about.
- **Epoch boundary.** The staker counts at the epoch of the base height, the storage at that of the
  block. The amounts are the same for all signers if and only if no key's stake changes at the
  boundary (`SameAmountsIff`); `EpochBoundaryDisagreement` shows the two tests differing in both
  directions where one does, and `BoundaryOnChain` a staker that hands in a proof its own storage refuses.
- **Failed transactions.** The mempool remembers a hash before it tries the transaction. `SeenIff`
  says exactly what it remembers and `AnswerExact` exactly which answer an attempt gets, so a failure
  bars a hash until the next rebase. In `EarlyBirdIsBarred` a transaction comes before the one it
  depends on and is then refused as a duplicate although it would succeed.
- **Batches without blocks, or without proofs.** `attempt_blksync` does not always end. It runs for
  ever if and only if from some request on, at a height not above the target, every answer is a batch
  without blocks, with or without proofs in it (`RunsForeverIff`). And when it reports success it need
  not have caught up: it has if and only if no batch had more blocks than proofs with the proofs ending
  below the target (`CaughtUpIff`). Enough blocks of any content without a proof make it report success
  with nothing applied (`NothingProvenIsSuccess`).

## Model

| member | source | states |
|---|---|---|
| Quorum.CountsAgree | src/staker.rs:196-198 | Summing signed documents, summing votes key by key, and summing the folded weight map give the same amount, for all documents and key sets |
| Quorum.Weights64ExactIff | src/staker.rs:337-350 | The truncating, overflow-checked 64-bit weight map equals the exact one if and only if every key's eligible stake is below 2^64 |
| Quorum.LargeStakesMiscount | src/staker.rs:343-348 | Concrete stakes that do not fit: 2^64 counts as 0, and two that add up to 2^64 abort |
| Quorum.StakerAgreesWithStorage | src/staker.rs:193-204 | With valid signatures and every key's stake the same in both epochs, the staker's test passes iff the signed stake passes the storage threshold |
| Quorum.StakerPassesExact | src/staker.rs:195-198 | The staker's test passes iff the votes of its keys are more than two thirds of the total |
| Quorum.SameAmountsIff | src/staker.rs:193-204 | The staker's sum at one epoch is the signed stake at another, for every signer set, iff no key's stake differs between the two |
| Quorum.EpochBoundaryDisagreement | src/staker.rs:194-195 | Where a key's stake changes at an epoch boundary, the staker's test and the storage's, as written and as intended, can differ either way |
| Quorum.StakerNeverUndercounts | src/staker.rs:193-204 | Where no key's stake changes between the base epoch and the block's, whatever part of the gathered signatures is valid, a proof with enough signed stake is one the staker submits |
| Quorum.QuorumIntersection | src/storage/storage.rs:293 | Two sets above floor(2T/3) each weigh at least (2T+1)/3, and three times their common weight is at least T+2 |
| Quorum.HonestOverlap | src/storage/storage.rs:277-300 | If bad keys hold at most a third, two quorums share a good key with stake |
| Quorum.WrittenDominates | src/storage/storage.rs:280-292 | The written tally is at least the signed stake and at most the total per document |
| Quorum.SupermajorityNeverRejected | src/storage/storage.rs:293-300 | A true supermajority is never rejected for lack of votes by the loop as written |
| Quorum.VerdictExact | src/storage/storage.rs:293-300 | Accepted iff the amount counted is more than two thirds of the total, rejected iff at most two thirds, an abort iff one of them leaves 128 bits |
| Quorum.WrittenNeedsASignature | src/storage/storage.rs:280-300 | If the written vote check passes, some eligible document was validly signed |
| Quorum.WrittenIsNotSound | src/storage/storage.rs:285-289 | A concrete electorate on which the written tally accepts without a supermajority |
| Quorum.WrittenSoundIff | src/storage/storage.rs:280-300 | The written tally decides like the signed stake for every signer set iff the last eligible signer is a supermajority alone and all others together do not pass (or there is no stake) |
| Quorum.WrittenSafeIff | src/storage/storage.rs:280-300 | With the tally as written, any two quorums share a key outside every set holding at most a third, iff the last eligible signer holds more than a third and no quorum can do without it (or there is no stake) |
| Quorum.ExactTallyIsSafe | src/storage/storage.rs:280-300 | Deciding like the signed stake is more than agreement needs: such electorates are safe, and two equal stakers are safe without being one |
| Tables.InsertRowsSomeIff | src/storage/storage.rs:327-336 | The stake inserts of a block succeed iff its keys are distinct and new |
| Tables.OpenExact | src/storage/storage.rs:74-91 | Opening keeps every row, adds exactly the founding stakes that are missing, and touches nothing else |
| Tables.CommitExact | src/storage/storage.rs:309-341 | A block is stored iff its height is free in both tables and its stake keys are new and distinct, and then adds the block, its proof and its rows, and changes no row |
| Tables.InsertedRows | src/storage/storage.rs:327-336 | They keep every row and add one for each stake transaction past the gate |
| Tables.AdmittedFrom | src/storage/storage.rs:303 | The stakes a block adds to the state are exactly those of its admitted stake transactions, each with the document of such a transaction |
| Tables.LastAdmitted | src/storage/storage.rs:303 | Of several admitted stake transactions of one hash the last one counts |
| Chain.EvolvedStakes | src/storage/storage.rs:303 | Closed form of the stake set after block-by-block expiry and admission |
| Chain.IndexedStakes | src/storage/storage.rs:162-190 | Closed form of the stake set rebuilt by the range query and one expiry |
| Chain.IndexExactAt | src/storage/storage.rs:162-190 | At one height the two are equal iff every row so far is treated alike there |
| Chain.IndexRefinesReplayIff | src/storage/storage.rs:162-190 | At all heights they are equal iff every stored block fits: a stake that writes a row is admitted exactly when unexpired |
| Chain.TipFitsIff | src/storage/storage.rs:226-234 | With all lower states rebuildable, a height is iff its own block fits |
| Chain.HeaderCommits | src/storage/storage.rs:303 | A stored header holds its height, exactly the block's transactions, the stakes after it, and the root made of its predecessor's by these transactions and action |
| Chain.GateCloses | src/storage/storage.rs:328-333 | Which transactions write a stake row: stake transactions with a document, off the main network or from height 500000 on; the transition function adds those of them it admits in the epoch of 200000 blocks |
| Chain.StakesPastTheGate | src/storage/storage.rs:328-333 | Every stake of a state is a founding one or the document of a stored stake transaction past the gate; on the main network below height 500000 only founding keys hold stake |
| Growth.ReadsAreImmutable | src/storage/storage.rs:193-259 | Block, proof, stake set and state at a committed height never change as blocks are appended |
| Growth.GetStateExact | src/storage/storage.rs:226-234 | get_state returns the chain's state below the tip; at the tip it aborts iff the tip block does not fit; elsewhere nothing |
| Growth.HighestStateExact | src/storage/storage.rs:123-131 | highest_state is the tip's state or genesis, never missing, and aborts iff the tip does not fit |
| Growth.CommitAppends | src/storage/storage.rs:309-341 | A commit adds exactly the next height and its proof; the earlier tables are its truncation |
| Growth.CommitKeepsChain | src/storage/storage.rs:262-341 | Committing a block decided on the tip keeps the chain valid |
| Growth.ApplyKeepsChain | src/storage/storage.rs:262-354 | apply_block keeps every store valid, appends at most one height, and a refusal changes nothing |
| Growth.ApplyExact | src/storage/storage.rs:262-354 | Exactly when a block is applied, and exactly when it is committed and then aborts the process |
| Growth.OutcomeExact | src/storage/storage.rs:262-354 | Each answer of apply_block by its exact case: wrong height, at most two thirds of the votes at the epoch of the next height, not the successor of the tip, a key taken, applied, or fatal |
| Growth.MisfitIsFatal | src/storage/storage.rs:226-234 | After a committed block that does not fit every further call aborts and changes nothing |
| Growth.MisfitExists | src/storage/storage.rs:329-332 | A concrete block with a stake that has already started is committed to a fresh store and kills the process, then and at every later call, however votes are counted |
| Growth.TruncateValid | src/storage/storage.rs:309-341 | Every earlier committed state of a valid chain is a valid chain with a readable tip |
| Growth.ReopenIsIdentity | src/storage/storage.rs:86-91 | Reopening a store changes no row |
| Replay.ReplayIsReconstruction | src/main.rs:80-89 | Replaying from any rebuilt state to any later height succeeds and gives the state rebuilt there |
| Replay.SelfTest | src/main.rs:78-97 | The self test never fails to apply a block while the chain grows, and ends in the tip state seen at its start; it stops early exactly if height 9 is missing or unreadable |
| Replay.NextStoredBlockIsAccepted | src/storage/storage.rs:262-354 | A store with the first k blocks accepts the next stored block and proof of that chain, and then equals its first k+1 |
| Agreement.HistoriesAgree | src/storage/storage.rs:277-303 | Two valid stores with unforged proofs have the same header, stakes and set of transactions at every common height, if the electorates up to there, as one of the two has them, have a bad minority and are safe for the tally used |
| Agreement.Agreement | src/storage/storage.rs:261-303 | Over every run of any network, with crashes and rollbacks, what two nodes hold at any two times agrees at common heights, under that condition on either one |
| Fork.ForkIff | src/storage/storage.rs:277-303 | On any chain that honest keys brought about, with two different next blocks to sign and votes counted as written: some run with a bad minority makes two nodes on that chain differ at the next height iff the electorate is not safe |
| Fork.SmallStakerForks | src/storage/storage.rs:285-289 | A run with a bad minority in which two nodes hold different first blocks, each certified only by the bad key with 1 of 101 |
| Cluster.ClusterRefinesNetwork | src/storage/storage.rs:261-354 | Every run of nodes in small steps, crashes included, is in its tables a run of atomic stores |
| Cluster.ClusterAgreement | src/storage/storage.rs:261-354 | The same for nodes with any number of interleaved tasks that crash at any step |
| Mempool.Mempool.ApplyTransaction | src/storage/mempool.rs:36-48 | The class step equals the insertion function: full, duplicate, refused but remembered, or accepted with its weight |
| Mempool.Mempool.Rebase | src/storage/mempool.rs:51-68 | Rebasing leaves an empty pool on the next height of the given state |
| Mempool.RebasedForNextBlock | src/storage/mempool.rs:63-67 | A rebased mempool is at the height of the next block, on the root and with the stakes that block starts from |
| Mempool.RealizedIsGenesis | src/storage/storage.rs:105-130 | The state the mempool is opened on and the state read at height 0 are the same genesis: height, stakes, root, nothing applied |
| Mempool.PoolInvariant | src/storage/mempool.rs:36-68 | After any operations the provisional state is the fold of the accepted transactions over the last rebase point, hashes are distinct, and the weight is exactly theirs, below the limit before the last |
| Mempool.SeenIff | src/storage/mempool.rs:36-48 | The mempool remembers exactly the hashes tried, successfully or not, with room since the last rebase |
| Mempool.AnswerExact | src/storage/mempool.rs:36-48 | After any operations: full iff the accepted weight has reached the limit; else duplicate iff tried with room since the last rebase; else accepted iff the state takes it |
| Mempool.EarlyBirdIsBarred | src/storage/mempool.rs:37-41 | A transaction refused for want of its parent is refused as a duplicate after the parent is accepted, although it would now succeed |
| Mempool.TriedOnceOnly | src/storage/mempool.rs:37-41 | What was tried while there was room is not accepted again before the next rebase, whether or not the first attempt succeeded |
| Flood.ForwardsOncePerRebase | src/node.rs:188-231 | In any stretch of a run without a rebase of its own a node forwards a transaction at most once, and not at all if it had seen it before |
| Flood.ForwardsArePaidFor | src/node.rs:188-231 | Between any two points of a run a node forwards at most once for not having seen the transaction at first and once per rebase in between |
| Flood.FloodIsBounded | src/node.rs:214-231 | Copies sent are at most 16 per node and rebase; deliveries are bounded by copies handed in and sent |
| Flood.ForwardsToPeers | src/node.rs:214-216 | Accepting sends one copy to each of the first sixteen peers, and anything else sends none |
| Flood.CopiesReachPeers | src/node.rs:214-228 | For each node: copies delivered, lost or under way to it are those handed in there plus one for each time it is among the first sixteen peers of a forwarding node |
| Flood.FloodSpreads | src/node.rs:214-228 | If nothing is lost, refused as recent or left under way, every one of the first sixteen peers of a forwarding node is handed the transaction afterwards, and has then seen it unless its mempool was full |
| Flood.PoolsAreMempools | src/node.rs:199-201 | In any run each node's mempool is what its own deliveries, other transactions and rebases make of it, so the mempool theorems hold of it |
| Storage.Storage.Open | src/storage/storage.rs:64-120 | Opening any disk inserts the missing genesis stakes and starts the mempool on the realized genesis; the store is valid iff the disk holds a valid chain |
| Storage.Storage.GetStakeset | src/storage/storage.rs:162-190 | The loops compute the indexed stake set |
| Storage.Storage.GetBlock | src/storage/storage.rs:193-223 | Returns the stored block or nothing, through a cache that only ever holds stored blocks |
| Storage.Storage.GetState | src/storage/storage.rs:226-234 | Block, stake set and root check combined are the specified read |
| Storage.Storage.HighestState | src/storage/storage.rs:123-131 | The specified read of the highest state |
| Storage.Storage.GetConsensus | src/storage/storage.rs:237-259 | There is a proof for exactly the heights of the chain, and its votes pass on that height's block with the stakes of the state before |
| Storage.Storage.CountVotes | src/storage/storage.rs:278-300 | The loop as written computes both totals and the verdict of `VerdictExact`, and aborts exactly on overflow |
| Storage.Storage.SaveBlock | src/storage/storage.rs:309-341 | All inserts succeed and are stored, or nothing is |
| Storage.Storage.ApplyBlock | src/storage/storage.rs:262-354 | The store moves exactly as the atomic function says and stays valid; on success the mempool is on the new tip, one height above it, and one notice is sent, otherwise neither changes |
| Interleaving.ReadStepKeeps | src/storage/storage.rs:193-234 | Each step of a read holds committed data, whatever happens between steps, and dies only on a tip that does not fit |
| Interleaving.CommitStepKeeps | src/storage/storage.rs:309-341 | The commit step keeps the whole invariant of the node, for all other tasks as well |
| Interleaving.NotifyKeeps | src/storage/storage.rs:349-351 | After the notice nobody who was listening is left without one |
| Runs.WritersAreSerialised | src/storage/storage.rs:262-275 | In every reachable state the tables are a valid chain and at most one writer is past the lock |
| Runs.CommitsAreAtomic | src/storage/storage.rs:262-341 | Every change of the tables is exactly what one apply_block call would do alone at that moment |
| Runs.RefusalsAreAtomic | src/storage/storage.rs:262-341 | A call that ends without storing anything ends, in any interleaving, with the outcome it would have alone at that moment; every other call that ends has stored its block as the tip |
| Runs.TablesOnlyGrow | src/storage/storage.rs:309-341 | Between crashes the tables only grow |
| Runs.LooksAreGrowing | src/storage/storage.rs:134-148 | Repeated looks at a running store show a growing valid chain |
| Runs.ReadsAreCommitted | src/storage/storage.rs:226-234 | What an interleaved reader got is the chain's state, then and at any later time before a crash; the highest state is never missing |
| Runs.WaitersGetTheirState | src/storage/storage.rs:151-159 | What get_state_or_wait(h) returns is the chain's state at h, then and at any later time before a crash |
| Runs.ReadsAreCurrent | src/storage/storage.rs:123-148 | An interleaved read of the top is at a height that was the tip at some moment of the call, so not below the tip at its start; a read that finds nothing looked when the block was missing |
| Runs.CachesAreCoherent | src/node.rs:143-267 | Block cache, abbreviated blocks, summaries and transaction trees always equal recomputation; a summary of a stored height carries the stored proof |
| Machine.AbbreviationHolds | src/node.rs:240 | An abbreviated block has the header and exactly the hashes of the transactions |
| Machine.TreeHolds | src/node.rs:158-161 | The transaction tree has every hash of the block's transactions, with the last transaction of that hash |
| Runs.NoLostWakeUp | src/storage/storage.rs:151-159 | Whenever a task sleeps unwoken for a stored block, a writer is between commit and notice |
| Runs.CrashesAreHarmless | src/storage/storage.rs:302-341 | Whatever a crash loses, the reopened store is a valid prefix whose states can all be rebuilt from what is on disk |
| Runs.WhyItDies | src/storage/storage.rs:229-232 | A step kills the process only if the tip does not fit or a vote count overflows |
| Alone.WokenWaiterReturns | src/storage/storage.rs:151-159 | A waiter that a notice has reached for a block that is there returns its state within five of its steps |
| Alone.StepsCount | src/storage/storage.rs:262-354 | Whatever the others do, each step of a task brings it nearer to its end |
| Alone.ApplyAlone | src/storage/storage.rs:262-354 | An apply_block call in small steps that nothing interrupts ends within 17 steps with exactly the tables and the outcome of the atomic function |
| Alone.ReadAlone | src/storage/storage.rs:193-234 | A read in small steps that nothing interrupts returns what the atomic read returns, within five steps |
| Alone.AnswersAreKept | src/node.rs:155-164 | An RPC that had to compute its answer leaves exactly that answer in its cache |
| Staker.GatherProof | src/staker.rs:193-249 | The loop hands in the signature map of the first moment at which the votes of its keys, at the epoch of the base height, are more than two thirds |
| Staker.LatestSignature | src/staker.rs:231-235 | The map holds, for each key, the last signature heard from any peer |
| Staker.SubmittedProofExact | src/staker.rs:205-211 | A valid block on the tip is refused for its votes iff the written tally of the signatures that verify, at the block's epoch, is at most two thirds (and no amount overflows) |
| Staker.SubmittedProofHasTheVotes | src/staker.rs:205-211 | If the signatures that verify pass the staker's own test and no key's stake changes, the storage never refuses the proof for lack of votes |
| Staker.JunkEndsGathering | src/staker.rs:196-240 | Of three equal stakers one hands in its own signature and worthless ones of the others, and the storage refuses them |
| Staker.BoundaryOnChain | src/staker.rs:193-211 | A valid chain of 199999 blocks on which the staker submits a proof that the storage refuses for its votes, and waits on one that it would not |
| Batch.GetLz4Blocks | src/node.rs:274-316 | While the chain grows the loop ends; None iff the first block is missing; else a nonempty contiguous run of stored pairs, fitting or single, maximal, with at most one surplus proof |
| Batch.BatchesAreBounded | src/node.rs:276-300 | A batch of more than one block is at most as long as asked for and at most ten million bytes |
| Sync.AttemptBlksync | src/node/blksync.rs:31-92 | Whenever the client loops end, they leave the store and return the count that the specified sequence of requests gives |
| Sync.SyncKeeps | src/node/blksync.rs:52-92 | Whatever a peer sends, after any number of requests the store is a valid extension, and unless the process dies the count equals the growth |
| Sync.OnePairExact | src/node/blksync.rs:77-86 | A received pair fails the attempt iff its height is not the expected one or the storage refuses it, and ends the process iff the storage aborts |
| Sync.RunsForeverIff | src/node/blksync.rs:40-90 | The sync never ends iff from some request on, at a height not above the target, every answer is a batch without blocks |
| Sync.HeightAccounts | src/node/blksync.rs:75-89 | While it goes on, the client is ahead of its chain by exactly the blocks received beyond the proofs they came with |
| Sync.CaughtUpIff | src/node/blksync.rs:75-92 | A sync that reports success has reached the target iff no batch had more blocks than proofs with its proofs ending below the target |
| Sync.NothingProvenIsSuccess | src/node/blksync.rs:75-89 | One batch of enough blocks, of any content, without proofs: the client reports success with nothing applied |
| Sync.NonemptyBatchesEnd | src/node/blksync.rs:40-90 | If no batch is empty the sync ends within one request per missing height |
| Sync.EmptyBatchesStall | src/node/blksync.rs:40-90 | Against a peer that only sends batches without blocks the client never moves or ends |
| Sync.SyncReachesTarget | src/node/blksync.rs:31-92 | Against a peer whose batches are good on a growing chain that extends the client's, the sync ends within one request per missing height, with a prefix of the peer's chain that reaches the target |
| Sync.EndToEnd | src/node.rs:274-316 | The same against a peer whose answers are those of its batch loop on its own growing store; the count returned is the client's growth |
| Sync.RepliesAreBounded | src/node/blksync.rs:44-45 | What a client is sent at once is a single block or at most 500000 bytes |
| Sync.AttemptBlksyncLegacy | src/node/blksync.rs:96-162 | The legacy loop computes the specified block-by-block sync over the heights of `LegacyEndToEnd` |
| Sync.LegacyKeeps | src/node/blksync.rs:112-161 | The legacy path keeps the store valid for every peer and counts its growth |
| Sync.LegacyReachesTarget | src/node/blksync.rs:112-161 | The legacy path fetches exactly the next blocks of an honest peer's chain |
| Sync.LegacyEndToEnd | src/node/blksync.rs:111-161 | Against an honest peer the client goes on to the height announced, by at most 1000 blocks or what is configured, and counts each |
| Sync.LegacyAllOrNothing | src/node/blksync.rs:120-161 | The legacy path reports success only if it applied every height it set out to fetch |

## Left out

- StakerAgreesWithStorage: equal amounts have an exact condition (`SameAmountsIff`), equal decisions only this sufficient one, because electorates with other amounts may still have the same winning sets.
- AttemptBlksync: stated for the runs that end; `RunsForeverIff` says exactly which do not.
- GatherProof: stated for the case that enough signatures are heard some time; otherwise the source asks for ever.
- HistoriesAgree: agreement is on headers (with their transactions and stakes); the proposer action is committed only through the coin root, which is a digest here.
- The Streamlette core, the choice and checking of proposals, timers, the skip round and random peers: consensus liveness is not claimed by the source either.
- Cancellation of a running `apply_block` future, and the connection pool: they depend on the executor.
- Two transactions of one block that differ only in signatures: their fate in the transition function is external.
- Encoding, compression, base64, SQL text and retries on database errors: encodings are identities with a size.
- The coin index and the RPCs built on it, Merkle branches, command line and binaries.
- Eviction sizes of the caches and the ten-second memory of `send_tx`: eviction and that refusal may happen at any time.
- Truncation to 128 bits of the mempool weight: it stays below the limit plus one transaction.
