# Urd and Pyramid in Dafny

A model of two sharded blockchains and of what they stand on, with proofs of what they promise.

* **Merkle trees** (`Merkle`, `MerkleIterative`, `MerkleProof`, `MerkleTrails`, `MerkleBinding`, `MerklePositions`). The hash function is a parameter. Nothing is
  assumed of it but the length of its results: where a statement holds only up to a collision, the two colliding strings are computed from the inputs.
* **Urd's leaders** (`UrdTypes`, `UrdHistory`, `UrdPipeline`, `UrdLeader`, `UrdLockstep`, `UrdRun`, `UrdTheorems`,
  `UrdProgress`, `UrdSoundness`, `UrdExecution`, `UrdVotes`, `UrdVoting`, `UrdBallots`, `UrdChecks`,
  `UrdContents`, `UrdBinding`, `UrdStuck`, `UrdHeavy`, `UrdUnproven`, `UrdNode`). One leader per shard exchanges one message per view with every other. `UrdLeader` gives each
  handler as a function on the leader's state, `UrdNode` gives the object whose methods run it step by step, `UrdRun` puts
  all leaders on a network that may delay, reorder and repeat packets, and `UrdTheorems` and `UrdProgress` state what every
  run guarantees. `UrdVotes` counts the votes inside a shard, `UrdVoting` follows one leader through any votes and
  messages, `UrdChecks`, `UrdContents`, `UrdBallots` and `UrdBinding` say what is let in, what blocks carry, what votes name and
  what a hash covers, and `UrdStuck`, `UrdHeavy` and `UrdUnproven` say where leaders come to a halt.
* **Pyramid's votes** (`PyramidVotes`, `PyramidVoteSet`, `PyramidNode`, `PyramidState`, `PyramidRun`, `PyramidProgress`, `PyramidCodes`, `PyramidEquivocation`). Weighted vote sets, the step machine of
  one validator, and runs in which Byzantine validators of at most a third of the weight sign what they like.
* **Ranges of keys** (`Keys`, `RangeTree`, `RangeNodes`, `RangeList`, `RangeStores`, `RangeMerging`, `RangePrinting`). The tree and the list of ranges, each
  as values and as the objects that are updated in place, and the proof that both are the same set.
* **Block parts** (`Parts`, `PartSets`, `BlockData`, `NestedMaps`, `BlockDataStates`), **the concurrent list and the mempool** (`CList`, `Mempool`, `MempoolStates`).
* **The bank** (`Bank`, `BankTotals`, `BankPayments`, `BankOverlay`, `BankReplay`, `BankTwoPhase`, `BankApplication`). Transfers on plain maps, the buffers
  they run through, blocks replayed from recorded read sets, and locks held between acceptance and decision.

`dafny verify dfyconfig.toml` verifies the project.

Where the code does not do what one would expect, the model follows the code:

* A Urd leader that weighs two thirds of its shard, rounded down, is a quorum by its own vote. The message of view 1 goes out
  (`FirstMessageGoesOut`); then it reaches view 2 (`HeavyLeaderGetsStuck`) and waits there for ever for a message of its own that
  it does not send (`LeaderGetsStuckIff`, `StuckForever`), so that no leader of any shard passes view 2 (`NoShardPassesView2`).
  The runs of `UrdRun` are those in which no leader is that heavy.
* The check of a cross-shard message does not look at the position of its proofs, nor whether a path computes anything. Exactly
  what passes is stated for any index and total (`IntentionPassesIff`, `OutputPassesIff`, `ValidMessageIff`). The roots of a
  block's committed transactions pass as its intention (`CommittedPassesAsIntention`), the outputs for one shard pass at every
  other (`OutputsPassAnywhere`), any transactions whatever pass against every block with a broken inner proof
  (`AnyOutputsPass`), and a message without proofs passes with any content. A passing proof at the outputs' position does show
  the block's outputs (`OutputIsShown`).
* A message without proofs that is next is used, and from the fourth block on the leader that holds it cannot make its next
  block: it panics as soon as the view is complete (`AcceptPanicsIff`, `UnprovenDooms`, `DoomedForever`).
* The hash of a block covers what the block contains only where the header does not bring the roots already
  (`HashCoversContents`, `RootsHideContents`).
* Pyramid's threshold means "more than two thirds" only while the total weight is below 2^30 (`ThresholdIsTwoThirds`).
* Pyramid executes the block at hand, not the block that was precommitted; they are the same exactly when the block is the
  one that the node saw a quorum prevote (`ExecutesAgreedIff`, `ExecutedMayDiffer`).
* A transfer reads all balances before it writes any, so a key that occurs twice loses its first entry
  (`TotalKeptIff`, `SelfTransferMakesMoney`).
* A transaction that is added to the mempool twice leaves a copy that nothing removes (`AddKeepsIndexIff`,
  `RemovableIff`, `SecondCopyHidesFirst`).
* An empty range list, or one with a comma in a key, is not read back from its printed form (`PrintedIsReadBack`).
* Two shard names can share a store key when one, with a colon, begins the other (`KeysMeet`), which with
  hashes of blocks takes a name that is 32 bytes longer (`HashKeysMeet`); the model's store is keyed by the pair.

## Model

| member | source | states |
|---|---|---|
| `Merkle.SplitPointIsLargestPowerBelow` | source/crypto/merkle/tree.go:95-106 | the split point found from the bit length is the largest power of two below the length |
| `MerkleIterative.SplitPointHalves` | source/crypto/merkle/tree.go:95-106 | halving a list of n > 2 hashes, rounded up, halves its split point |
| `MerkleIterative.LevelKeepsRoot` | source/crypto/merkle/tree.go:9-21 | hashing neighbouring pairs of one level, with an odd last hash moved up, leaves the recursive tree hash as it is |
| `MerkleIterative.RootFromLeafHashes` | source/crypto/merkle/tree.go:9-21 | the recursive hash of a list is the hash of the tree over its leaf hashes |
| `MerkleIterative.CombineLevel` | source/crypto/merkle/tree.go:71-89 | one pass of the inner loop, in place with read and write positions, leaves the next level in the first half of the array |
| `MerkleIterative.HashFromByteSlicesIterative` | source/crypto/merkle/tree.go:62-92 | the in-place iterative hash equals the recursive hash with a largest-power-of-two split, for every list |
| `MerkleProof.AuditPathComputesRoot` | source/crypto/merkle/proof.go:144-174 | recomputing the hash from an audit path gives the root |
| `MerkleProof.AuditPathIsShort` | source/crypto/merkle/proof.go:190-229 | an audit path has at most ceil(log2 n) hashes |
| `MerkleProof.ProofsAreComplete` | source/crypto/merkle/proof.go:37-70 | every proof that is handed out verifies against the root for its own leaf, and passes the basic check |
| `MerkleProof.PathIsSound` | source/crypto/merkle/proof.go:144-174 | a path that hashes to the root of a tree leads to that leaf of the tree, or gives two different strings with one hash |
| `MerkleProof.ProofsAreSound` | source/crypto/merkle/proof.go:54-70 | a proof that verifies with the right total is the proof of the leaf at its index; with any total its leaf is a member; or a computed pair of strings collides |
| `MerkleTrails.ProofNode.FlattenAunts` | source/crypto/merkle/proof.go:190-204 | walking from a leaf to the root along parent and sibling pointers collects the audit path |
| `MerkleTrails.Join` | source/crypto/merkle/proof.go:219-228 | linking two trees under a new root, in place, extends every audit path by the root of the other half |
| `MerkleTrails.TrailsFromByteSlices` | source/crypto/merkle/proof.go:209-229 | the linked tree has the recursive hash at its root and every leaf's trail spells its audit path |
| `MerkleTrails.ProofsFromByteSlices` | source/crypto/merkle/proof.go:37-50 | the root is the recursive hash, and proof i is the audit path of leaf i |
| `MerkleBinding.RootBinds` | source/crypto/merkle/tree.go:9-21 | lists with one tree hash are equal, whatever their lengths, or a computed pair of strings collides |
| `UrdPipeline.IntentionProofVerifies` | source/urd/types/commit_intention.go:89-98 | the intention proof taken from a block verifies against that block's hash |
| `UrdPipeline.OutputProofVerifies` | source/urd/types/txs.go:47-60 | the output proof taken from a block verifies against that block's hash for the outputs it commits to |
| `MerklePositions.VerifiesIff` | source/crypto/merkle/proof.go:54-70 | a proof with any index and total verifies against a tree exactly when it carries the hash of its leaf and its path leads to a place that holds that leaf, or a computed pair of strings collides |
| `MerklePositions.ComputesNothingIff` | source/crypto/merkle/proof.go:144-174 | nothing is computed exactly when the index is not below the total or the aunts are not one for each turn of the path |
| `MerklePositions.VerifiesNothingIff` | source/crypto/merkle/proof.go:54-70 | against an empty root exactly the proofs that compute nothing verify, for any leaf whose hash they carry |
| `UrdSoundness.LeafIsShown` | source/urd/types/block.go:110-147 | with total 7 a proof against a block hash verifies exactly when it is the block's own proof of the leaf at its index, and with any total its leaf is one of the seven, or a computed pair of strings collides |
| `UrdSoundness.IntentionPassesIff` | source/urd/types/commit_intention.go:89-98 | an intention proof of any index and total passes exactly when it carries the hash of the pair of the brief's root and its right hash and points at a leaf that is the root of that pair: the intention, the committed transactions, the outputs or the prepared transactions; or a computed pair of strings collides |
| `UrdSoundness.IntentionPassesAt` | source/urd/types/commit_intention.go:89-98 | the same by index for total 7: which pair passes at 2, 3, 4 and 5, and that none passes at 0, 1 and 6 |
| `UrdSoundness.IntentionIsShown` | source/urd/types/commit_intention.go:89-98 | at the intention's index a passing proof shows the block's own intention, or a computed pair of strings collides |
| `UrdSoundness.CommittedPassesAsIntention` | source/urd/types/commit_intention.go:89-98 | for every block the proof at index 5 passes as an intention proof, with the roots of the committed transactions as the brief |
| `UrdSoundness.OutputPassesIff` | source/urd/types/txs.go:47-60 | an output proof of any indices and totals passes exactly when, with an unbroken inner path, its two proofs point at a place of a list of the block that holds the root of the transactions, and with a broken one, the outer proof points at an empty leaf, whatever the transactions; or a computed pair of strings collides |
| `UrdSoundness.InnerPassesIff` | source/urd/types/txs.go:51-55 | the inner proof passes against a leaf exactly when it is unbroken and points at a place of the list under the leaf that holds the root of the transactions, or is broken and the leaf is empty |
| `UrdSoundness.OutputIsShown` | source/urd/types/txs.go:47-60 | a passing proof at the outputs' leaf shows the transactions that the block puts out at the inner index, or a computed pair of strings collides |
| `UrdSoundness.OutputsPassAnywhere` | source/urd/types/cross_shard_data.go:19-27 | the outputs for shard i, with their own proof, are accepted by the leader of every shard |
| `UrdSoundness.AnyOutputsPass` | source/urd/types/txs.go:47-60 | against every block any transactions pass with a broken inner proof under the block's own proof of its empty state leaf, and every leader accepts the message |
| `UrdSoundness.ValidMessageIff` | source/urd/types/cross_shard_data.go:19-27 | a message passes exactly when each proof that it has meets its condition, also if its vote names no block; a proof that it does not have leaves the brief or the transactions free |
| `UrdSoundness.ValidBlockIff` | source/urd/types/block.go:247-295 | for any block on which ValidateBasic finds all it looks up, it passes exactly when from view 6 on each intention and each core names what the vote beside it names and the core shows an intention there, the three lists have one length, and every committed list that is not disputed is shown to belong to the block that its vote names, or to nothing where it names none; or a computed pair of strings collides |
| `UrdBinding.HashCoversContents` | source/urd/types/block.go:110-147 | two blocks as leaders make them have one hash exactly when they agree on chain, view, round, time, the block before, transactions, outputs, last vote, intention, certificate and committed transactions with their proofs; or one of the computed pairs of strings collides |
| `UrdBinding.FilledHasSameHash` | source/urd/types/block.go:62-97 | filling the missing roots in does not change the hash |
| `UrdBinding.RootsHideContents` | source/urd/types/block.go:62-97 | two blocks with one header that brings all roots have one hash, whatever they contain |
| `UrdPipeline.MessagesAreValid` | source/urd/types/cross_shard_data.go:19-27 | every message that the histories prescribe passes its basic check |
| `UrdPipeline.CertificatesAgree` | source/urd/types/commit_certificate.go:84-102 | block v of any shard certifies, without dispute, block v - 4 of every shard |
| `UrdPipeline.EntryIsValid` | source/urd/types/block.go:262-293 | every certificate entry and every list of committed transactions in a block verifies against the vote beside it |
| `UrdPipeline.BlocksAreValid` | source/urd/types/block.go:247-295 | every block of aligned histories passes ValidateBasic and reaches no missing entry in it |
| `UrdPipeline.WindowOfAppend` | source/urd/consensus/state.go:152-160 | appending to the window of a chain gives the window of the longer chain |
| `UrdPipeline.FetchFromWindow` | source/urd/consensus/state.go:146-151 | a block at most seven places back is found at its place in the window |
| `UrdPipeline.BlocksPassVerification` | source/urd/consensus/state_transition.go:87-143 | every block passes verify_block at a validator that has the blocks before it |
| `UrdLockstep.AcceptKeepsHeld` | source/urd/consensus/state.go:240-276 | taking any message that was sent, in any order, leaves every held message and last hash right |
| `UrdLockstep.RedoNeverOverwrites` | source/urd/consensus/state.go:278-296 | a replayed message is the one of this view, from a shard of which nothing is held yet |
| `UrdLockstep.MessageIsAligned` | source/urd/consensus/state_transition.go:353-402 | the shifted output buffer, the block two places back and the proofs belong together in every view, and no lookup is out of range |
| `UrdLockstep.CommunicateEffect` | source/urd/consensus/state_transition.go:353-419 | after communicating, each shard's entry is the leader's own message, the replayed one, or what was there |
| `UrdLockstep.CommunicateKeepsHeld` | source/urd/consensus/state_transition.go:353-419 | communicating leaves every held message right and nothing usable unread |
| `UrdLockstep.CompleteHoldsAll` | source/urd/consensus/block_datas.go:111-113 | equal sizes of the two maps mean that exactly the messages of this view are held, one from every shard |
| `UrdLockstep.NextBlockHolds` | source/urd/consensus/state_transition.go:269-352 | the new block holds the messages of the view that ends: votes as intention, proofs as certificate, outputs as transactions to commit |
| `UrdLockstep.ProposeKeepsLocal` | source/urd/consensus/state_transition.go:204-267 | proposing keeps the window, the shifted buffers and the executed blocks in step with the chain |
| `UrdLockstep.ProposeKeepsHeld` | source/urd/consensus/block_datas.go:132-144 | a new view starts with nothing held and every shard's last hash in place |
| `UrdRun.CommunicateKeepsInv` | source/urd/consensus/state_transition.go:353-419 | communicating keeps the invariant of all leaders and of the network, and panics nowhere |
| `UrdRun.ProposeKeepsInv` | source/urd/consensus/state_transition.go:210-267 | proposing keeps the invariant of all leaders and of the network, and panics nowhere |
| `UrdRun.AcceptKeepsInv` | source/urd/consensus/state.go:240-261 | accepting a packet of the network keeps the invariant |
| `UrdRun.ApplyKeepsInv` | source/urd/consensus/state_transition.go:38-85 | every handler that can run finds all it looks up and keeps the invariant |
| `UrdRun.InitKeepsInv` | source/urd/consensus/state.go:116-135 | the start of all leaders meets the invariant |
| `UrdTheorems.BlockHashFixesView` | source/urd/types/block.go:120-147 | two blocks with one hash have one view, or a pair of strings computed from them collides |
| `UrdTheorems.EveryRunIsInOrder` | source/urd/consensus/state_transition.go:38-85 | the invariant holds in every state of every run, under delay, reordering and duplication of messages |
| `UrdTheorems.NoRunPanics` | source/urd/consensus/state_transition.go:38-85 | in every state of every run, whatever can happen next is handled without a missing block, message or proof |
| `UrdTheorems.LeadersStayTogether` | source/urd/consensus/state_transition.go:54-76 | no two leaders are ever more than one view apart |
| `UrdTheorems.BarrierHolds` | source/urd/consensus/state_transition.go:54-63 | a leader advances by one view at a time, and leaves a view holding exactly its message from every shard |
| `UrdTheorems.PacketsAreValid` | source/urd/types/cross_shard_data.go:19-27 | every packet of every run passes the checks at its receiver, which refuses it only as a duplicate |
| `UrdTheorems.SentIsUseful` | source/urd/consensus/state.go:240-261 | a message of this view that was sent and is not held is on its way, is accepted, and is used |
| `UrdTheorems.SomeoneCanMove` | source/urd/consensus/state_transition.go:54-76 | when no leader waits for a quorum, some packet on its way fills an empty place of the slowest leader |
| `UrdProgress.CanWork` | source/urd/consensus/state_transition.go:38-85 | in every state of every run some event can happen and adds to what the leaders have done |
| `UrdProgress.RunsCanReachAnyView` | source/urd/consensus/state_transition.go:38-85 | every run can be carried on until all leaders have reached any given view that fits its eight bytes, unless two blocks of one chain give a collision away |
| `UrdTheorems.RunsCertifyOneHistory` | source/urd/types/commit_certificate.go:84-102 | in every run all shards' blocks of one view certify the same blocks, without dispute |
| `UrdTheorems.RunsMakeValidBlocks` | source/urd/consensus/state_transition.go:87-143 | in every run every block passes ValidateBasic and verify_block |
| `UrdContents.RunsCarryTransactions` | source/urd/consensus/state_transition.go:269-352 | in every run every block of every shard has its shard's name, and exactly the transactions and the time that its proposal took, with the root of those transactions as leaf 2 of its hash; the proposals took the inputs of Start and of that leader's events, in order |
| `UrdContents.ExecutedAreReaped` | source/urd/consensus/state_transition.go:204-267 | in every run the blocks executed carry the transactions that were reaped, in order |
| `UrdChecks.ValidMeansProofsHold` | source/urd/types/cross_shard_data.go:19-27 | a message passes exactly when each proof it carries verifies against the last hash of its vote |
| `UrdChecks.OnlyWelcomeAreStored` | source/urd/consensus/state.go:177-270 | a message is stored exactly when its proofs verify, its shard exists and its place is free; any other changes nothing and sends nothing |
| `UrdChecks.FailingProofIsIgnored` | source/urd/consensus/state.go:177-184 | a message with a proof that fails changes nothing and sends nothing |
| `UrdChecks.OnlyCheckedAreHeld` | source/urd/consensus/state.go:177-270 | from Start on, whatever arrives, every stored message and every held message of another shard has only proofs that verify against the last hash of its vote |
| `UrdVotes.CastKeepsBallot` | source/core/hotstuff/height_datas.go:43-64 | the two totals stay the weights of those who accept and reject, each validator counts once, and a quorum stays one |
| `UrdVotes.FirstVotesCount` | source/core/hotstuff/height_datas.go:43-64 | whatever votes arrive, each validator's first vote on the block counts and nothing else does, and the two totals are the weights of those who accept and reject |
| `UrdVotes.OwnVoteIsQuorumIff` | source/core/hotstuff/height_datas.go:66-68 | a proposer's own vote is a quorum exactly when its weight is two thirds of all, rounded down |
| `UrdVotes.AggregatedCarries` | source/core/hotstuff/height_datas.go:70-107 | if every voter names the hash of the block before, the aggregated vote is for the proposed block and carries that hash |
| `UrdVotes.AggregatedSays` | source/core/hotstuff/height_datas.go:70-107 | there is an aggregated vote exactly when those who accept, or those who reject, weigh two thirds rounded down; it is on the ballot's block, view and round, accepts exactly when those who accept weigh so much, and has the data of the last validator that voted |
| `UrdVotes.HeightData.AddVote` | source/core/hotstuff/height_datas.go:43-64 | a vote for another view, round or block, or a second one of a validator, changes nothing; another is counted with its weight |
| `UrdVotes.HeightData.GetMaj23` | source/core/hotstuff/height_datas.go:70-107 | the loop over the votes gives the aggregated vote exactly when there is a quorum |
| `UrdVoting.TransitIsDrive` | source/urd/consensus/state_transition.go:38-85 | the handler over the counted votes is one step of the runs, with the quorum that the leader's own vote makes |
| `UrdVoting.QuorumFits` | source/core/hotstuff/height_datas.go:70-107 | a quorum of votes that name the block before is a vote that the runs allow |
| `UrdBallots.QuorumsAlwaysFit` | source/urd/consensus/state_transition.go:210-267 | from Start on, whatever arrives from validators that name the block before, the leader's count is on its last block and every vote in it, its own first, names the block before, so that each quorum is a vote that the runs allow |
| `UrdStuck.ProposalGetsStuckIff` | source/urd/consensus/state_transition.go:25-36 | a proposal leaves the leader waiting without its own message exactly when it weighs two thirds of its shard, rounded down |
| `UrdStuck.StuckForever` | source/urd/consensus/state_transition.go:54-63 | for every sequence of votes and of other shards' messages such a leader stays so, sends nothing, and keeps its view, chain, votes and executed blocks |
| `UrdStuck.LeaderGetsStuckIff` | source/urd/consensus/state_transition.go:25-85 | from Start on, whatever arrives, a leader that found all it looked up is stuck exactly when it is that heavy and past view 1; a heavy leader always finds all and never passes view 2 |
| `UrdStuck.HeavyLeaderGetsStuck` | source/urd/consensus/state_transition.go:25-85 | with two or more shards, the first messages of the others, in any order, take a heavy leader from Start to view 2, where it is stuck |
| `UrdStuck.FirstMessageGoesOut` | source/urd/consensus/state.go:116-127 | in view 1 Start leaves even a heavy leader waiting for votes with a quorum, and whatever it takes next is handled and sends its message to every other shard |
| `UrdHeavy.NoShardPassesView2` | source/urd/consensus/state_transition.go:38-85 | in every run of all leaders with counted votes, if one leader is that heavy, no handler panics and no leader of any shard passes view 2 |
| `UrdUnproven.ProposalIsDefinedIff` | source/urd/consensus/state_transition.go:269-352 | a leader that holds all messages can make its block exactly when it has fewer than four blocks or every message has both proofs |
| `UrdUnproven.AcceptPanicsIff` | source/urd/consensus/state.go:240-269 | taking a message makes a waiting leader panic exactly when that completes the view, there are four blocks, and some message then held lacks a proof |
| `UrdUnproven.UnprovenDooms` | source/urd/types/cross_shard_data.go:19-27 | a message without proofs that is next is taken, and then a message is held that the next block needs proofs of |
| `UrdUnproven.DoomedForever` | source/urd/consensus/state_transition.go:54-85 | such a leader never proposes again: whatever arrives, it stays in its view and sends nothing, or it panics |
| `UrdExecution.ValidatorsStayInStep` | source/urd/consensus/state_transition.go:161-202 | whatever blocks a validator is shown, it keeps the last seven accepted and has executed all accepted but the last two, each once and in order |
| `UrdExecution.AcceptsIffContinues` | source/urd/consensus/state_transition.go:87-190 | a validator accepts a block of view 5 or later exactly when its vote is for the hash of the block accepted last, names the hash of the one before that, and there is one intention and one core for every shard; earlier blocks are always accepted |
| `UrdExecution.AcceptedContinue` | source/urd/consensus/state_transition.go:87-190 | whatever blocks a validator is shown, each that it accepted continues so those accepted before it |
| `UrdExecution.VoteSaysWhatIsAccepted` | source/urd/consensus/state_transition.go:145-190 | the vote of a validator accepts exactly when the block continues those accepted, is on that block, and names the block accepted last |
| `UrdExecution.ValidatorsFollow` | source/urd/consensus/state_transition.go:161-190 | a validator accepts its leader's whole chain |
| `UrdExecution.FollowersVoteForIt` | source/urd/consensus/state_transition.go:145-190 | a validator that has its leader's chain before a block votes for that block, and names the one before it |
| `UrdExecution.LeadersExecuteInOrder` | source/urd/consensus/state_transition.go:192-202 | in every run a leader has executed its chain but the last two blocks |
| `UrdExecution.LogsNeverFork` | source/urd/consensus/state_transition.go:161-208 | a validator's log is a prefix of its leader's, and equal when it has seen every block |
| `UrdNode.State.constructor` | source/urd/consensus/state.go:107-113 | a new leader has no block and no message |
| `UrdNode.State.Redo` | source/urd/consensus/state.go:278-296 | looking the shards up in any order takes every stored message that continues the hash last seen |
| `UrdNode.State.Fetch` | source/urd/consensus/state.go:146-151 | while the pool is the end of a chain, the block that many places from the end of the chain |
| `UrdNode.State.Append` | source/urd/consensus/state.go:152-159 | a pool that is the last seven blocks of a chain becomes the last seven of the chain with the new block |
| `UrdNode.State.MakeBlock` | source/urd/consensus/state_transition.go:269-352 | the loops over all shards put every shard's vote, core, transactions and proof in place, and the block has the transactions, time and name that the proposal took |
| `UrdNode.State.DoPropose` | source/urd/consensus/state_transition.go:210-267 | proposing starts a new count of votes with the leader's own and changes the state as the functions say |
| `UrdNode.State.CrossShardCommunicate` | source/urd/consensus/state_transition.go:353-419 | communicating changes the state and sends the packets that the runs say |
| `UrdNode.State.BuildMessage` | source/urd/consensus/state_transition.go:388-402 | the message for a shard is made from the buffers and the block two places back |
| `UrdNode.State.HandleStateTransition` | source/urd/consensus/state_transition.go:38-85 | the handler calls itself until nothing is left to do; leader, votes and packets are those of one transition, which is one step of the runs |
| `UrdNode.State.Start` | source/urd/consensus/state.go:116-127 | the first proposal, with the leader's own vote counted |
| `UrdNode.State.ReceiveVote` | source/urd/consensus/state.go:262-269 | a vote is counted on the leader's own count or refused, and a counted one drives the handler, as the functions say |
| `UrdNode.State.DoMessage` | source/urd/consensus/state.go:177-270 | a message is taken exactly when each of its proofs verifies against the last hash of its vote, its shard exists and its place in the store is free; a refused one changes nothing, another drives the handler |
| `UrdNode.KeysMeet` | source/urd/consensus/state.go:242 | two shard names can share a store key exactly when one, with a colon, begins the other |
| `UrdNode.HashKeysMeet` | source/urd/consensus/state.go:242 | with hashes of blocks they share one exactly when, besides, one name is 32 bytes longer than the other |
| `UrdNode.Result` | source/urd/types/commit_certificate.go:84-102 | the nested loops find for each shard the first opinion and whether a later one differs |
| `UrdNode.ResultIsFirstOpinion` | source/urd/types/commit_certificate.go:84-102 | the result for a shard is the opinion of the first core that has one, and empty exactly when none has |
| `UrdNode.DisputedIff` | source/urd/types/commit_certificate.go:84-102 | a shard is disputed exactly when two cores have different opinions on it |
| `PyramidVotes.ThresholdIsTwoThirds` | source/pyramid/consensus/constypes/vote_set.go:77 | the comparison means more than two thirds exactly when the total is below 2^30 |
| `PyramidVotes.QuorumsMeet` | source/pyramid/consensus/constypes/vote_set.go:77 | two sets above two thirds share a validator outside any set of at most one third |
| `PyramidVotes.AddVoteKeepsTally` | source/pyramid/consensus/constypes/vote_set.go:51-83 | counts are the weights of the backers, and the majority is set exactly when some pair has more than two thirds |
| `PyramidVoteSet.VoteSet.constructor` | source/pyramid/consensus/constypes/vote_set.go:29-41 | an empty vote set |
| `PyramidVoteSet.VoteSet.AddVote` | source/pyramid/consensus/constypes/vote_set.go:51-83 | only a validator's first vote counts, the first majority stays, and an ambiguous second vote is reported |
| `PyramidVoteSet.VoteSet.MajoritySigners` | source/pyramid/consensus/constypes/vote_set.go:89-106 | the bit vector holds exactly the validators that voted for the majority pair |
| `PyramidVoteSet.Certify` | source/pyramid/consensus/constypes/vote_set.go:89-106 | the signers of a certificate weigh strictly more than two thirds |
| `PyramidState.ConsensusState.FinishPrevote` | source/pyramid/consensus/height_datas.go:129-141 | finished once, or when the proposal is and the prevotes have a majority |
| `PyramidState.ConsensusState.FinishPrecommit` | source/pyramid/consensus/height_datas.go:142-154 | finished once, or when the prevotes are and the precommits have a majority |
| `PyramidState.ConsensusState.EndPropose` | source/pyramid/consensus/main.go:541-555 | the prevote is for the block at hand, with the outcome of its execution in advance as its code |
| `PyramidState.ConsensusState.EndPrevote` | source/pyramid/consensus/main.go:557-569 | the precommit repeats the prevote majority |
| `PyramidState.ConsensusState.EndPrecommit` | source/pyramid/consensus/main.go:571-597 | the block at hand is executed |
| `PyramidState.ConsensusState.HandleStateTransition` | source/pyramid/consensus/main.go:407-455 | the handler goes through all steps that are finished, as one step of the runs |
| `PyramidState.ConsensusState.ReceivePrevote` | source/pyramid/consensus/height_datas.go:209-222 | a prevote of another height, of no validator, or ambiguous changes nothing; another is counted and drives the handler |
| `PyramidState.ConsensusState.ReceivePrecommit` | source/pyramid/consensus/height_datas.go:224-236 | the same for precommits |
| `PyramidState.ConsensusState.ReceiveBlock` | source/pyramid/consensus/height_datas.go:181-207 | the last part of a block drives the handler |
| `PyramidState.ConsensusState.EnterNewHeight` | source/pyramid/consensus/main.go:783-797 | a new height starts without block and votes |
| `PyramidRun.ProposeKeepsInv` | source/pyramid/consensus/main.go:541-555 | prevoting keeps the invariant: one prevote per height, for the block at hand |
| `PyramidRun.PrevoteKeepsInv` | source/pyramid/consensus/main.go:557-569 | precommitting keeps the invariant: one precommit per height, backed by a quorum of prevotes |
| `PyramidRun.PrecommitKeepsInv` | source/pyramid/consensus/main.go:571-597 | finishing a height keeps the invariant |
| `PyramidRun.EveryRunIsInOrder` | source/pyramid/consensus/main.go:407-455 | the invariant holds after every run, with any votes of Byzantine validators of at most one third |
| `PyramidRun.FinishedIsReal` | source/pyramid/consensus/height_datas.go:115-154 | in every run an honest node finishes a step exactly when it has the block and the majorities that the step asks for; the remembered pass is never ahead of them |
| `PyramidRun.Agreement` | source/pyramid/consensus/height_datas.go:142-154 | no two honest nodes finish a height with different precommit majorities |
| `PyramidRun.PrecommitsAreBacked` | source/pyramid/consensus/main.go:557-569 | whatever a quorum precommits, a quorum has prevoted |
| `PyramidRun.MajoritiesMatch` | source/pyramid/consensus/height_datas.go:129-154 | at a node that finishes a height the prevote majority it saw is the pair that was precommitted |
| `PyramidRun.OneBlockOneExecution` | source/pyramid/consensus/main.go:571-597 | if all honest nodes have one block at a height, the block executed is the one precommitted |
| `PyramidRun.ExecutesAgreedIff` | source/pyramid/consensus/main.go:571-597 | a node executes the precommitted block exactly when its block is the one it saw a quorum prevote |
| `PyramidCodes.PrevotesSayOutcomes` | source/pyramid/consensus/main.go:489-555 | in every run an honest node has prevoted at a height with a code exactly when executing the block in advance had that outcome |
| `PyramidCodes.OneOutcome` | source/pyramid/consensus/main.go:489-555 | no honest node has two outcomes at one height |
| `PyramidCodes.PrecommitsWereExecuted` | source/pyramid/consensus/main.go:489-569 | the pair that a quorum precommits was at some honest node the block at hand and the outcome of executing it in advance |
| `PyramidCodes.NoOutcomeNoCommit` | source/pyramid/consensus/main.go:489-597 | if at no honest node the execution in advance at a height had an outcome, no honest node finishes the height with it |
| `PyramidProgress.EveryRunIsLive` | source/pyramid/consensus/main.go:407-455 | in every run an honest node rests only where a block or majority is missing, and every vote it was to cast is on its way |
| `PyramidProgress.HeightsCanFinish` | source/pyramid/consensus/main.go:407-455 | every run in which each honest node has a block at a height, and all honest prevotes there agree, can be carried on until all honest nodes have finished the height with that pair and executed its block, if the honest weight is a quorum |
| `PyramidEquivocation.ExecutedMayDiffer` | source/pyramid/consensus/main.go:571-597 | a run with a Byzantine proposer of a fifth of the weight, in which an honest node executes a block while the precommit majority is another |
| `Keys.RanksOrder` | source/utils/RangeTree.go:335-341 | byte-by-byte order of keys is the order of their ranks |
| `RangeTrees.SearchFinds` | source/utils/RangeTree.go:314-324 | searching one side only finds exactly the keys in the leaves' ranges |
| `RangeTrees.CasesCover` | source/utils/RangeTree.go:158-215 | the six cases of adding leave nothing out, so the panic is not reached |
| `RangeTrees.AddIsUnion` | source/utils/RangeTree.go:136-216 | adding a range, empty or not, to a node never panics, keeps keys, sibling order and depths right, and is union |
| `RangeTrees.DeleteIsDifference` | source/utils/RangeTree.go:218-312 | deleting a range from a node never panics, keeps keys, sibling order and depths right, and is difference |
| `RangeTrees.AddIsUnionOf` | source/utils/RangeTree.go:30-74 | AddRange on the whole tree is union and keeps it in order, and without empty ranges if none is added |
| `RangeTrees.DeleteIsDifferenceOf` | source/utils/RangeTree.go:76-91 | DeleteRange on the whole tree is difference and keeps it in order |
| `RangeTrees.RangesCover` | source/utils/RangeTree.go:325-333 | the ranges of the leaves, from left to right, follow one another and cover exactly the keys of the tree |
| `RangeNodes.RangeTreeNode.Search` | source/utils/RangeTree.go:314-324 | search on linked nodes is search on the tree |
| `RangeNodes.RangeTreeNode.Settle` | source/utils/RangeTree.go:140-157 | two touching leaves become one, and the depth is set |
| `RangeNodes.RangeTreeNode.AddAcross` | source/utils/RangeTree.go:158-168 | a range across the gap closes it by moving the key of the shallower child |
| `RangeNodes.RangeTreeNode.AddRange` | source/utils/RangeTree.go:136-216 | AddRange on linked nodes, in place, is AddRange on the tree |
| `RangeNodes.RangeTreeNode.Rejoin` | source/utils/RangeTree.go:271-311 | what remains of the children is joined again, or the only one takes the node's place |
| `RangeNodes.RangeTreeNode.DeleteRange` | source/utils/RangeTree.go:218-312 | DeleteRange on linked nodes, in place, is DeleteRange on the tree |
| `RangeNodes.RangeTree.Search` | source/utils/RangeTree.go:23-28 | Search is membership in the ranges |
| `RangeNodes.RangeTree.AddRange` | source/utils/RangeTree.go:30-74 | after AddRange exactly the old keys and those of the range are found |
| `RangeNodes.RangeTree.DeleteRange` | source/utils/RangeTree.go:76-91 | after DeleteRange exactly the old keys outside the range are found |
| `RangeNodes.RangeTreeNode.Range` | source/utils/RangeTree.go:325-333 | the ranges of the leaves are appended to the output in order |
| `RangeNodes.RangeTree.Range` | source/utils/RangeTree.go:93-98 | the ranges are in order and cover exactly the keys that are found |
| `RangeLists.GoodPlaceIsPlace` | source/utils/RangeList.go:179-182 | there is just one good place, the last boundary not above the key |
| `RangeLists.HasMeansPlace` | source/utils/RangeList.go:69-71 | a key is in the set exactly when its place is even |
| `RangeLists.AddIsUnion` | source/utils/RangeList.go:72-124 | AddRange keeps boundaries strictly increasing and even in number, and is union |
| `RangeLists.DeleteIsDifference` | source/utils/RangeList.go:126-173 | DeleteRange keeps boundaries strictly increasing and even in number, and is difference |
| `RangeLists.SameSetSameList` | source/utils/RangeList.go:17-19 | a set has one list of boundaries |
| `RangeStores.RangeList.Find` | source/utils/RangeList.go:184-197 | the search terminates, reads no place outside the list, and returns the last boundary not above the key |
| `RangeStores.RangeList.Search` | source/utils/RangeList.go:69-71 | Search is membership in the ranges |
| `RangeStores.RangeList.AddRange` | source/utils/RangeList.go:72-124 | after AddRange exactly the old keys and those of the range are in the set |
| `RangeStores.RangeList.DeleteRange` | source/utils/RangeList.go:126-173 | after DeleteRange exactly the old keys outside the range are in the set |
| `RangeStores.RangeList.Range` | source/utils/RangeList.go:62-68 | the ranges in pairs |
| `RangeStores.StoresAgree` | source/utils/RangeTree.go:23-98 | after any calls the tree has not panicked, is in order, has no empty range unless one was added, and finds exactly the keys that the list finds and that unions and differences of intervals give |
| `RangeStores.ListIsCanonical` | source/utils/RangeList.go:72-173 | the list depends on the set alone, not on the calls that built it |
| `RangeMerging.RangesMergeToList` | source/utils/RangeTree.go:93-98 | after any calls the ranges that the tree lists, with touching ones merged and empty ones dropped, are the boundaries of the list |
| `RangePrinting.SplitOfJoin` | source/utils/RangeList.go:22-40 | splitting joined labels without commas gives them back |
| `RangePrinting.PrintedIsReadBack` | source/utils/RangeList.go:22-40 | a list is read back from its printed form exactly when it is not empty and no key has a comma |
| `Parts.PiecesJoin` | source/utils/compare-bytes.go:3-13 | joining the pieces gives the bytes back; no piece is empty or too long |
| `Parts.SplitByteArray` | source/utils/compare-bytes.go:3-13 | the loop cuts the bytes into those pieces |
| `Parts.AddKeepsSet` | source/urd/types/block-part.go:195-211 | any basically valid part keeps the count equal to the filled slots and every part in its own slot |
| `Parts.CompleteSetIsBlock` | source/urd/types/block-part.go:213-222 | a complete set, fed any parts in any order, holds the bytes of the block, unless a part gives a collision away |
| `Parts.GenuineIsAdded` | source/urd/types/block-part.go:166-211 | a genuine part fills its slot if that is still empty |
| `Parts.OnlyGenuineIsAdded` | source/urd/types/block-part.go:195-211 | into the set of a block goes exactly the genuine part for a slot that is still empty; any other basically valid part leaves the set as it was, or gives a collision away |
| `Parts.FilledByAccepted` | source/urd/types/block-part.go:195-211 | which slots are filled depends on which parts came, not on their order |
| `PartSets.PartSet.AddPart` | source/urd/types/block-part.go:195-211 | no basically valid part is stored outside the set, and the outcome is the one the checks give |
| `PartSets.PartSet.JoinParts` | source/urd/types/block-part.go:214-222 | a complete set has every slot filled, and its bytes are joined in order |
| `PartSets.PartSetFromBlock` | source/urd/types/block-part.go:166-193 | the header and parts of a block's bytes |
| `BlockDatas.NextKeepsData` | source/urd/consensus/block_datas.go:132-144 | after a view ends, every part set and early part is still in its place, and none is older than what is retained |
| `NestedMaps.Prune` | source/urd/consensus/block_datas.go:145-163 | the nested loops leave exactly the entries that are not old, unchanged, and no view without a round |
| `BlockDatas.ArrivalOrder` | source/urd/consensus/block_datas.go:40-109 | for a view and round that is not over, the part set is what the first header and then the parts would have made, wherever the header came |
| `BlockDatas.HeaderMayComeLate` | source/urd/consensus/block_datas.go:40-109 | runs with the same first header and the same parts end with the same part set |
| `BlockDatas.OverIsGone` | source/urd/consensus/block_datas.go:132-180 | once a view and round are over nothing is kept for them, whatever still arrives |
| `BlockDataStates.BlockData.AddPart` | source/urd/consensus/block_datas.go:94-109 | a part without its header is kept, another is added to its set |
| `BlockDataStates.BlockData.AddPartSetHeader` | source/urd/consensus/block_datas.go:40-69 | a new header takes the parts that came early, in their order |
| `BlockDataStates.BlockData.Next` | source/urd/consensus/block_datas.go:132-180 | over the nested maps, next prunes both as the function on single entries says, and leaves no empty inner map |
| `CLists.CElement.SetNext` | source/libs/clist/clist.go:158-177 | the next latch is renewed only after it was released, and released only once |
| `CLists.CElement.SetPrev` | source/libs/clist/clist.go:181-195 | the same for the previous latch |
| `CLists.CElement.SetRemoved` | source/libs/clist/clist.go:197-212 | a removed element keeps both latches released |
| `CLists.CElement.DetachNext` | source/libs/clist/clist.go:136-144 | detaching changes no latch |
| `CLists.CElement.DetachPrev` | source/libs/clist/clist.go:146-154 | the same for the previous element |
| `CLists.CList.PushBack` | source/libs/clist/clist.go:316-352 | panics exactly when the list is full; otherwise the element joins the end, and links, length and latches follow the longer sequence |
| `CLists.CList.Remove` | source/libs/clist/clist.go:356-401 | no panic for an element of the list; links, length and latches follow the sequence without it |
| `Mempools.AddKeepsIndexIff` | source/urd/mempool/mempool.go:38-45 | the index stays complete exactly when the new transaction's key is not in it yet |
| `Mempools.RemoveKeepsIndex` | source/urd/mempool/mempool.go:47-55 | removing keeps a complete index complete, and no copy is left |
| `Mempools.RemovableIff` | source/urd/mempool/mempool.go:38-55 | some sequence of additions and removals takes a transaction away exactly when its key stands for its place |
| `Mempools.SecondCopyHidesFirst` | source/urd/mempool/mempool.go:38-55 | in any pool, adding a transaction whose key is there already leaves the earlier copy in the list whatever is added and removed afterwards |
| `MempoolStates.Mempool.AddTx` | source/urd/mempool/mempool.go:38-45 | panics exactly when the transaction is valid and the list is full; otherwise the list and the index change together, and every indexed element is in the list |
| `MempoolStates.Mempool.RemoveTx` | source/urd/mempool/mempool.go:47-55 | the indexed element leaves the list and the index |
| `MempoolStates.Mempool.Update` | source/urd/mempool/mempool.go:75-83 | every transaction of a block is removed in turn |
| `MempoolStates.Mempool.ReapTx` | source/urd/mempool/mempool.go:57-73 | the longest prefix of the list that is smaller than the limit |
| `Bank.SumMoney` | source/pyramid/abci/minibank/types.go:85-94 | the sums of a transfer, modulo 2^32 |
| `Bank.WritesKeys` | source/pyramid/abci/minibank/application.go:484-501 | a successful transfer writes all its keys |
| `BankTotals.EntriesReflect` | source/pyramid/abci/minibank/application.go:455-502 | after a transfer a key has its old balance and the amount last entered for it |
| `BankTotals.TotalKeptIff` | source/pyramid/abci/minibank/application.go:455-502 | a successful transfer keeps the total modulo 2^32 exactly when the amounts that its own later entries replace add up to nothing |
| `BankTotals.DistinctKeysKeepTotal` | source/pyramid/abci/minibank/application.go:455-502 | a transfer between distinct accounts keeps the total |
| `BankTotals.BlockKeepsTotal` | source/pyramid/abci/minibank/application.go:230-262 | a block of such transfers keeps the total |
| `BankTotals.SelfTransferMakesMoney` | source/pyramid/abci/minibank/application.go:455-502 | a transfer to oneself makes money |
| `BankPayments.SucceedsIffCanPay` | source/pyramid/abci/minibank/application.go:455-502 | over the store a transfer succeeds exactly when its lists match and are not empty, the amounts agree modulo 2^32, all keys are unlocked and in range, and every payer's balance is at least its amount |
| `BankPayments.ReplaySucceedsIff` | source/pyramid/abci/minibank/application.go:455-502 | the same over a recorded read set, where a payer that is not in it always pays |
| `BankPayments.StepMoves` | source/pyramid/abci/minibank/application.go:455-502 | a transfer that can be paid takes from each payer, in plain integers, the amount last entered for it and gives to each payee modulo 2^32; any other leaves every balance as it was |
| `BankPayments.ReplayMoves` | source/pyramid/abci/minibank/application.go:173-199 | from a recorded read set the last entry of a key takes or adds its amount modulo 2^32, from the initial balance if the key was not recorded, and a recorded payer is left with exactly its amount less |
| `BankOverlay.MemoryDB.GetPlain` | source/pyramid/abci/minibank/memdb.go:45-68 | the balance through the buffers; caching changes no balance |
| `BankOverlay.MemoryDB.Get` | source/pyramid/abci/minibank/memdb.go:138-211 | what the running transaction wrote comes first; then a range view reads its own keys, and a recorded view only what was recorded |
| `BankOverlay.MemoryDB.CommitWrite` | source/pyramid/abci/minibank/memdb.go:91-100 | the buffered writes take effect or are dropped |
| `BankOverlay.MemoryDB.Write` | source/pyramid/abci/minibank/memdb.go:159-180 | a flush stores the shard's keys and drops the others; if all are the shard's, the store then holds what was seen through the buffers |
| `BankOverlay.Validate` | source/pyramid/abci/minibank/types.go:77-101 | the checks of a transfer |
| `BankOverlay.DoTransfer` | source/pyramid/abci/minibank/application.go:455-502 | over the store a transfer succeeds exactly when its lists match, its sums agree, its keys are unlocked and in range, and every payer has what it is to pay; then its writes and reads are in the buffers |
| `BankApplication.Application.ExecutionInnerShard` | source/pyramid/abci/minibank/application.go:230-262 | running a block through the buffers and flushing once is folding the successful transfers over the plain map |
| `BankApplication.Application.FillData` | source/pyramid/abci/minibank/application.go:264-285 | the recorded data are the success flags and the balances read, over what the transactions before left |
| `BankApplication.Application.ReplayBlock` | source/pyramid/abci/minibank/application.go:178-199 | the writes of a cross-shard block from its recorded data |
| `BankApplication.Application.AcceptCrossShard` | source/pyramid/abci/minibank/application.go:155-228 | if the block is to be committed, the keys of this shard that its successful transactions write are locked with their new values; in either case it is stored as accepted |
| `BankApplication.Application.AcceptCommitShard` | source/pyramid/abci/minibank/application.go:84-154 | the blocks that are known and accepted are committed or aborted in turn with one batch of writes, the others are skipped, and the receipts say which were committed |
| `BankApplication.FirstDecisionWins` | source/pyramid/abci/minibank/application.go:84-154 | for every list of decisions, the first that concerns a key frees it, and the store gets the value it was locked with exactly when that decision is to commit; later ones do nothing, and other keys stay as they are |
| `BankReplay.WrittenIsRun` | source/pyramid/abci/minibank/application.go:230-253 | running a block is writing its last value to every written key |
| `BankReplay.ReadSetSuffices` | source/pyramid/abci/minibank/application.go:264-285 | a transfer that succeeded does so again from its read set, and writes the same |
| `BankReplay.ReplayIsExecution` | source/pyramid/abci/minibank/application.go:173-199 | re-executing a block from its recorded read sets gives the same success flags and the same value for every key |
| `BankReplay.SortedIsUnique` | source/pyramid/abci/minibank/types.go:122-137 | a set of keys has one sorted list |
| `BankReplay.Encode` | source/pyramid/abci/minibank/types.go:122-137 | the keys of a read set in order, and their values |
| `BankReplay.Decode` | source/pyramid/abci/minibank/types.go:111-121 | the map that the lists give |
| `BankReplay.RoundTrip` | source/pyramid/abci/minibank/types.go:111-137 | what is encoded is decoded, and the encoding does not depend on how the map is walked |
| `BankTwoPhase.InnerIsStripped` | source/pyramid/abci/minibank/application.go:460-475 | locks do no more than make the transactions that touch them fail |
| `BankTwoPhase.RunApart` | source/pyramid/abci/minibank/application.go:377-404 | while a block is pending all else goes on as without it, except that transactions on its locked keys fail |
| `BankTwoPhase.DecisionIsIsolated` | source/pyramid/abci/minibank/application.go:84-154 | abort leaves what would be there without the block, commit adds exactly the values computed at acceptance, and its locks are gone either way |
| `BankTwoPhase.CommitIsAtomic` | source/pyramid/abci/minibank/application.go:84-154 | accepting, going on and committing is writing the values at once and going on without the transactions on the locked keys |
| `BankTwoPhase.CommitWritesExecution` | source/pyramid/abci/minibank/application.go:155-228 | the values that are locked are those of the recording shard's own execution |

## Left out

- Networking, logging, configuration, the storage engines, protobuf encoding and signatures: packets and votes are values, a store is a map, a codec is the identity, and a vote of an honest validator exists only if that validator cast it. Signature checks on cross-shard messages are commented out in the source; the runs contain only messages that leaders sent.
- Goroutine interleavings inside one call: a handler that holds its lock is one step.
- Urd's votes in the runs of `UrdRun`: reaching a quorum is one event there, with a vote on the block of the view that carries the hash of the block before it. Votes are counted in `UrdVoting` and in the runs of `UrdHeavy`; that a validator names the block before is taken from its own code.
- Urd's start and stop: all leaders have started before the first packet arrives (a message that arrives before Start is lost), and the stop after a fixed number of views is not modelled.
- Urd's bank, and the effect of executing a block: a run keeps which blocks were executed, and takes their outputs as input.
- A Urd validator that rejects a block: its handler calls itself on the same block again; the execution log is about accepted blocks.
- The mempool's choice of transactions and the clock: a proposal takes them as input.
- Fields of a block that its hash does not cover: the root of the cross-shard transactions is not among the hashed leaves and is not modelled.
- Pyramid's panic on a block that fails its checks, its proposer rotation and the counting of messages between shards: a node that panics takes no further event, a block arrives as an event, and the gate at the end of a height opens as an event.
- Pyramid's buffer for messages of a later height: such a message is one that arrives later.
- The check of recorded data for freshness before a cross-shard block is accepted: its loop runs over a field that cross-shard blocks leave empty.
- RangeList.StartKey and EndKey, Add of a whole other store, and the tree's own text format: they add only easy members.
- BlockDataStates.BlockData: a part set in it is a value, and the leader's own complete part set is not put in.
- PyramidState.ConsensusState.ReceiveBlock: the proposal and the parts of a block are one event, the arrival of the whole block; how parts become a block is modelled for Urd.
- PartSets.PartSet.JoinParts: the decoding of the joined bytes and the checks on the decoded block are not part of it.
