# FRG ledger: verified model

FRG is a BFT ledger: validators agree on blocks by a propose, prevote, precommit, commit machine; a
state machine applies blocks to balances, stakes, fees and contracts in one database transaction; a
padded 4-ary tree aggregates the block's transactions into a root with statistics and inclusion
proofs; and everything travels and is stored in hand-written byte formats. This project models those
four cores in Dafny and proves what they promise over whole runs, whole trees and all byte strings.
`dafny verify dfyconfig.toml` checks it.

**Consensus.** `Quorum`, `Attestations`, `Protocol` (one node as atomic steps), `Agreement` (a network
of honest nodes that crash and faulty keys that sign anything), `ConsensusEngine` (the handlers as they
run, with a ghost history that is a run of the protocol), `CommittedBodies` (agreement down to the
transactions), `Networks` (agreement of the engines as they run), `Equivocation` (when a node signs twice
for one slot), `Mempool`, `Evidence`.

**Ledger.** `Ledger`, `Economics`, `Staking`, `BlockApply` (functions on values), `Database`,
`StateMachine`, `Genesis` (the same as they update the buckets, with rollback), `Chain` (runs of applied
and failed blocks), `Supply`, `Solvency`, `Nonces`, `Effects` (what every run and every pass keeps),
`HonestBond` (consensus, evidence and staking together) and `EmptyBlocks` (the engine's retries on this
state machine).

**Tree.** `Nodes`, `NodeCodec`, `Coarsening`, `RGTree` (building and in-place update), `TreeStats`,
`TreeBuild`, `TreeProofs`, `ProofGeneration`, `StaleProofs` (after a failed update), `FastProof` (the
verifier over one shared buffer), `BlockTree`, `AppliedTree` (the tree of an applied block).

**Formats.** `VoteCodec`, `VoteLists`, `TxCodec`, `TxParser`, `BatchCodec`, `ProposalCodec`,
`BlockCodec`, `SnapshotCodec`, `DecoderPanics` (which bytes panic), with `TxWire`, `BatchWire` and
`SnapshotWire` tying each layer's abstract codec to the one below, over `Bytes`, `Layout` and `Framing`.
`Wrappers`, `Errors`, `Messages`, `Sequences` and `Passes` are shared helpers.

How the world outside enters:

- SHA-256 is a function parameter, never assumed injective: results that need it give the colliding
  bytes instead. Escrow, fee and contract addresses are constructors of their own, distinct from keys.
- Ed25519 is a parameter too; where forgery matters, the hypothesis is that a signature of a key
  verifies only on a message its owner signed (RFC 8032 section 5.1). Only keys sign transactions.
- A WASM run is the list of transfers it asks for, whether it loads, exports the function and traps,
  and its fuel. Proposer rotation and Unicode normalisation are parameters. The outcome of each snapshot
  and vote slot write, timer and network delivery is a free choice, and handlers are shown to terminate
  for any finite number of failed slot commits. Whether a block applies is a function of chain and block.
- Integers are unbounded with the source's uint16, uint32, uint64, int32 and uint256 limits written out.

What the code does where its documentation or a first reading says otherwise:

- A transfer or contract move from an account to itself creates the amount (core/ledger/ledger.go:116-129).
- A contract transfer whose credit would overflow keeps the debit (core/contract/runtime.go:278-303).
- Gas fees are burned, not distributed: nothing calls `Accrue` when a block is applied.
- Skipped transactions still pay the base fee and skipped miss evidence still counts.
- A batch of exactly 65536 transactions serialises with count zero and cannot be read back.
- The transaction decoder panics on one family of inputs, which `TxParser.PanicsExactly` states, and so do
  the batch and proposal decoders around it (`DecoderPanics`).
- The proposal signing prefix is cut to its first twelve bytes (core/consensus/vote.go:141-154).
- `RecordConsensusVote` discards the error of its commit: a vote can go out without its durable slot, and
  after a restart the slot is used again (core/statemachine/statemachine.go:187-198, `Evidence.HonestConvicted`).
- `startNextRound` keeps a stale locked round; the precommit timer advances the round in any phase.
- The fast proof verifier hashes steps of invalid scale and panics on child indices above three.
- A failing `UpdateLeaves` keeps the leaves it had already replaced under the old root (`RGTree.RefusedLate`),
  and a later success on the same tree can leave layers that are not those of its leaves (`RGTree.StaleSuccess`).

## Model

| member | source | states |
|---|---|---|
| `Quorum.QuorumsShareHonest` | core/consensus/vote.go:344-363 | two quorums of strictly more than two thirds of the stake share a validator outside any set holding at most a third |
| `Quorum.StakeTable` | core/consensus/vote.go:346-355 | the table of stakes by key and their sum, for any order and any duplicate-free validator list |
| `Quorum.QuorumReached` | core/consensus/vote.go:346-363 | true exactly when the voters hold strictly more than two thirds of the total stake |
| `Quorum.QuorumBlock` | core/consensus/consensus.go:682-707 | found exactly when some hash is backed by a strict two-thirds quorum, and then that hash, whatever the order in which the vote map and the tally are read |
| `Quorum.OneQuorumBlock` | core/consensus/consensus.go:682-707 | no two different hashes can both be backed by a quorum in one vote map, so the map order does not matter |
| `Attestations.VerifyAttestation` | core/consensus/vote.go:302-342 | accepts exactly the attestations whose votes are distinct validators' verified precommits for its height, round and block and whose stake is a quorum |
| `Attestations.AttestationFromPrecommits` | core/consensus/consensus.go:639-654 | exactly the precommits for the block, sorted by key, with their height and round |
| `Attestations.AttestationUnique` | core/consensus/consensus.go:639-654 | the attestation does not depend on the order of the precommit map |
| `Attestations.CommitAttestationAccepted` | core/consensus/consensus.go:639-654 | the attestation built after a commit passes VerifyAttestationForChain of every other node |
| `Attestations.AcceptedElsewhere` | core/consensus/vote.go:302-342 | an attestation accepted under one validator set is accepted under another if and only if its voters belong to that set and are a quorum of it |
| `Protocol.StepKeepsNodeInv` | core/consensus/consensus.go:364-680 | every atomic step keeps: stored votes verify and are of the current height, round, type and key; no proposal while proposing; height is committed height plus one; the carried attestation is of the height before and passes under its validators; the snapshot is sound |
| `Protocol.RunKeepsNodeInv` | core/consensus/consensus.go:185-680 | so does every run of such steps, with crashes anywhere, whether or not snapshots decode and slot commits fail |
| `Protocol.StepForward` | core/consensus/consensus.go:609-680 | a step other than a restart keeps (height, round, phase) from decreasing if and only if it does not wrap the uint32 round |
| `Protocol.RunForward` | core/consensus/consensus.go:609-680 | over a run without restart or wrap, (height, round, phase) never decreases |
| `Protocol.AttestationHolds` | core/consensus/consensus.go:420-431 | the attestation made from a node's stored precommits for a decided block is for that height and round and passes the signature and quorum checks of every node |
| `Agreement.RunInv` | core/consensus/consensus.go:364-573 | in every run of honest nodes and faulty keys, with crashes and failed slot commits: every honest ballot sits in its durable slot unless that slot's commit failed under it, every honest non-nil precommit, in its slot or released, rests on a quorum of prevotes, every commit on a quorum of precommits |
| `Agreement.OneSignedBlock` | core/consensus/consensus.go:682-707 | two quorums of ballots for one slot name one block, when the validators that are faulty or whose slot lapsed hold at most a third of the stake |
| `Agreement.HonestPrecommitsAgree` | core/consensus/consensus.go:364-573 | all non-nil precommits of honest nodes in one (height, round), in their slots or released, name the same block, when the validators that are faulty or whose prevote slot of the round lapsed hold at most a third |
| `Agreement.CommitsAgree` | core/consensus/consensus.go:575-601 | nodes that commit a height in the same round commit the same hash, each of a proposal that serialises, under the same bound for the precommit slot |
| `Agreement.CommitHasHonestPrecommit` | core/consensus/consensus.go:575-601 | a committed block sits in the durable precommit slot of some honest node and rests on a quorum of prevotes |
| `Equivocation.EquivocatesExactly` | core/statemachine/statemachine.go:177-200 | over every run, an honest node signs two different blocks for one slot if and only if it releases a ballot while the commit of its slot fails and later releases another for that slot |
| `Equivocation.KeepersDoNotEquivocate` | core/statemachine/statemachine.go:177-200 | without a failed commit under a released ballot it never does |
| `Equivocation.LapseThenRestart` | core/statemachine/statemachine.go:177-200 | a run that does: prevote with a failed slot commit, restart, prevote another proposal of the round |
| `CommittedBodies.OneHashOneBody` | core/consensus/vote.go:125-156 | two serialisable proposals with one block hash have the same header, attestation and transactions as the wire normalises them, or their signing bytes collide |
| `CommittedBodies.CommittedBodiesAgree` | core/consensus/consensus.go:575-601 | so nodes that commit a height in the same round commit the same transactions, or exhibit a collision of the hash function |
| `Networks.Weave` | core/consensus/consensus.go:185-680 | the recorded histories of several engines, interleaved in any order in which ballots are heard after they are signed and with any ballots of other keys, are a run of the network with the same lapsed slots |
| `Networks.EnginesAgree` | core/consensus/consensus.go:575-601 | two engines that commit a height in the same round commit the same hash |
| `Networks.EnginesPrecommitAlike` | core/consensus/consensus.go:364-573 | all non-nil precommits of two engines in one (height, round), in their slots or released, name the same block |
| `ConsensusEngine.HistoryIsRun` | core/consensus/consensus.go:185-307 | between events an engine is one height ahead of the ledger, holds no proposal while proposing, stores only fitting votes, and has not gone backwards; its whole history is a run of the protocol steps |
| `ConsensusEngine.Engine.RecordVote` | core/statemachine/statemachine.go:177-200 | refuses a taken slot and a failed write; a failed commit is not reported, and the vote is accepted without its slot |
| `ConsensusEngine.Engine.HandleVote` | core/consensus/consensus.go:364-456 | ignores what it must ignore, stores and persists the rest, acts on a completed quorum only in the waiting phase and ends outside the commit phase; when the next empty block on the current chain applies, it retries failed commits at most pool length plus one times |
| `ConsensusEngine.Engine.Precommit` | core/consensus/consensus.go:392-410 | locks on the block of a prevote quorum exactly when there is one, and casts a precommit for it, or for nil, unless the slot is taken; a vote that gets out has used its slot or one failed commit |
| `ConsensusEngine.Engine.OnPrevoteQuorum` | core/consensus/consensus.go:392-410 | terminates and stays idle after the recursive handling of its own precommit |
| `ConsensusEngine.Engine.Decide` | core/consensus/consensus.go:419-431 | commits exactly when the adopted proposal has the decided hash, encodes and applies; then the next height starts with an accepted attestation |
| `ConsensusEngine.Engine.OnPrecommitQuorum` | core/consensus/consensus.go:417-453 | a decided and applicable block is appended and the height advances; in every other case the lock is dropped, the round advances and the proposal's transactions leave the pool; when the next empty block on the current chain applies, the retries are at most pool length plus one |
| `ConsensusEngine.Engine.RejectAndRestart` | core/consensus/consensus.go:432-453 | the proposal's transactions leave the pool, the lock is dropped and the round advances; when the next empty block on the current chain applies, the retries are at most pool length plus one, and one fewer after an own non-empty batch |
| `ConsensusEngine.Engine.TryCommit` | core/consensus/consensus.go:575-601 | appends the block and removes its transactions from the pool, or changes nothing |
| `ConsensusEngine.Engine.RejectProposal` | core/consensus/consensus.go:603-607 | a rejected own batch strictly shrinks the pool |
| `ConsensusEngine.Engine.RestartRound` | core/consensus/consensus.go:609-637 | the first step drops the lock and advances the round; the recursion through own proposals terminates, and when the next empty block on the current chain applies it ends after at most pool length more retries |
| `ConsensusEngine.Engine.StartNextRound` | core/consensus/consensus.go:656-680 | the next height with empty votes and no locked block, keeping the old locked round |
| `ConsensusEngine.Engine.BroadcastProposal` | core/consensus/consensus.go:325-362 | changes nothing, or proposes the pool's batch with the last attestation and casts a prevote for it without consulting the lock; recursion terminates |
| `ConsensusEngine.Engine.BroadcastPrevote` | core/consensus/consensus.go:531-551 | a taken slot changes nothing; a free one is written for this block and nothing else, or left free by a failed write or commit, and then the verifying ballot gets out unless the write failed or signing or serialising fails |
| `ConsensusEngine.Engine.BroadcastPrecommit` | core/consensus/consensus.go:553-573 | a taken slot changes nothing; a free one is written for this block and nothing else, or left free by a failed write or commit, and then the verifying ballot gets out unless the write failed or signing or serialising fails |
| `ConsensusEngine.Engine.CheckProposal` | core/consensus/consensus.go:458-485 | accepts exactly the elected proposer's proposal for this height, round and parent, once, with verified signatures and attestation |
| `ConsensusEngine.HonestProposalAcceptable` | core/consensus/consensus.go:458-485 | the proposal an honest node makes is acceptable to a node waiting at that height, round and parent if and only if it carries no attestation or that height's validators back it; always while the validators are those of the height before |
| `ConsensusEngine.Engine.HandleProposal` | core/consensus/consensus.go:458-503 | a refused proposal changes nothing; an accepted one is prevoted, as nil when locked on another block |
| `ConsensusEngine.Engine.OnProposeTimeout` | core/consensus/consensus.go:505-516 | prevotes nil, only in the propose phase |
| `ConsensusEngine.Engine.OnPrevoteTimeout` | core/consensus/consensus.go:518-529 | precommits nil, only in the prevote phase |
| `ConsensusEngine.Engine.OnPrecommitTimeout` | core/consensus/consensus.go:281-291 | the first step starts a new round whatever the phase and keeps the lock |
| `ConsensusEngine.Engine.OnProposeReady` | core/consensus/consensus.go:292-306 | acts only in the propose phase |
| `ConsensusEngine.Engine.Restart` | core/consensus/consensus.go:185-235 | after a crash the engine resumes from the disk alone: from the snapshot if it decodes for the next height, from a fresh state otherwise |
| `Evidence.EvidenceBytes` | core/statemachine/statemachine.go:902-922 | the evidence verifier rebuilds exactly the bytes a validator signs |
| `Evidence.EvidenceIsExact` | core/statemachine/statemachine.go:846-900 | evidence is accepted against a key if and only if it shows two verified, conflicting, non-nil votes of that key for one slot and carries no stray fields |
| `Evidence.DomainsSeparate` | core/consensus/vote.go:67-89 | a vote message is never a proposal message nor a 32-byte transaction hash |
| `Evidence.VerifiedWasCast` | core/statemachine/statemachine.go:902-922 | a verified evidence vote of a key whose signatures are not forged is a ballot it cast |
| `Evidence.ConvictedExactly` | core/statemachine/statemachine.go:846-922 | over every run with restarts, evidence convicting a validator that votes only through its engine exists if and only if the commit of one of its slots failed under a released ballot and the slot was used again for another block |
| `Evidence.HonestNeverConvicted` | core/statemachine/statemachine.go:846-922 | over every run with restarts in which no ballot of a validator that votes only through its engine got out while its slot's commit failed, no evidence transaction convicts it, whatever chain it is judged under |
| `Evidence.HonestConvicted` | core/statemachine/statemachine.go:846-922 | a run with one failed slot commit and one restart in which such a validator is convicted |
| `Mempool.QueueRefinesFifo` | core/blockloop/blockloop.go:33-54 | list and index together are a duplicate-free FIFO whose ids are exactly the index keys, of length at most the capacity |
| `Mempool.DropRefinesKeep` | core/blockloop/blockloop.go:213-227 | removing one list element is the order-preserving filter on its id |
| `Mempool.KeepIsFifo` | core/blockloop/blockloop.go:213-227 | filtering keeps a FIFO a FIFO and removes exactly the given ids |
| `Mempool.RejectShrinks` | core/blockloop/blockloop.go:213-227 | removing a proposed non-empty batch strictly shortens the pool |
| `Mempool.Mempool.Enqueue` | core/blockloop/blockloop.go:86-111 | appends a new id, evicting the oldest when full; known ids and transactions without id change nothing |
| `Mempool.Mempool.Has` | core/blockloop/blockloop.go:129-134 | true exactly for queued ids |
| `Mempool.Mempool.Propose` | core/blockloop/blockloop.go:167-183 | the prefix of at most 65536 transactions, leaving the pool alone |
| `Mempool.Mempool.RemoveCommitted` | core/blockloop/blockloop.go:213-227 | the pool without the given transactions, in order |
| `VoteCodec.EncodeVoteInjective` | core/consensus/vote.go:34-43 | the 141-byte vote format is one to one |
| `VoteCodec.ParseOfEncode` | core/consensus/vote.go:34-59 | decoding an encoded vote gives it back |
| `VoteCodec.SerializeVote` | core/consensus/vote.go:34-43 | the buffer filled at advancing offsets is the format |
| `VoteCodec.DeserializeVote` | core/consensus/vote.go:46-59 | accepts exactly 141 bytes, and those as the vote they encode |
| `VoteCodec.VoteSignBytesInjective` | core/consensus/vote.go:67-89 | equal signing bytes mean equal ballots and equal chains |
| `VoteLists.VotesRoundTrip` | core/consensus/vote.go:200-216 | a counted vote list is read back with the rest untouched |
| `TxCodec.SerializeUnsigned` | core/tx/tx.go:73-158 | the unsigned bytes or the first check that fails |
| `TxCodec.Serialize` | core/tx/tx.go:174-192 | the full encoding or the first check that fails |
| `TxCodec.EncodeInjective` | core/tx/tx.go:73-192 | equal encodings mean equal transactions up to what the wire drops |
| `TxCodec.UnsignedInjective` | core/tx/tx.go:73-158 | the unsigned bytes determine everything they cover |
| `TxCodec.SigningBytesInjective` | core/tx/tx.go:432-443 | chain-bound signing bytes determine the chain and the signed content |
| `TxParser.RoundTrip` | core/tx/tx.go:205-379 | decoding an encoding gives the transaction back, up to NFC labels and payloads its type does not carry |
| `TxParser.ParseIsCanonical` | core/tx/tx.go:371-379 | whatever is accepted is the encoding of what is returned |
| `TxParser.PanicsExactly` | core/tx/tx.go:205-237 | the decoder panics if and only if the sender label leaves fewer than two bytes for the receiver's length |
| `TxParser.ShortestPanic` | core/tx/tx.go:215-241 | 287 bytes that announce a sender of 277: the decoder panics |
| `TxParser.Deserialize` | core/tx/tx.go:205-379 | the cursor-based decoder is the parsing function, errors and panic included |
| `BatchCodec.SerializeBatch` | core/tx/tx.go:447-477 | the batch bytes or the first check that fails |
| `BatchCodec.DeserializeBatch` | core/tx/tx.go:480-520 | the entry loop is the parsing function |
| `BatchCodec.BatchRoundTrip` | core/tx/tx.go:447-520 | a serialisable batch comes back as its normal form below 65536 transactions and is refused at 65536 |
| `BatchCodec.BatchInjective` | core/tx/tx.go:447-477 | batches of one size with the same bytes have the same normal form, the full size included |
| `DecoderPanics.BatchPanicsExactly` | core/tx/tx.go:480-520 | the batch decoder panics if and only if, among the announced transactions, some that parse are followed by one that is cut short |
| `TxWire.CoderRoundTrips` | core/tx/tx.go:205-379 | the law the batch codec asks of single transactions is their proved round trip |
| `ProposalCodec.SerializeProposal` | core/consensus/vote.go:165-174 | signature and body, or the first check that fails |
| `ProposalCodec.DeserializeProposal` | core/consensus/vote.go:177-244 | the decoder is the parsing function |
| `ProposalCodec.ProposalRoundTrip` | core/consensus/vote.go:165-294 | a proposal of clean transactions is read back if and only if it has fewer than 65536 |
| `ProposalCodec.ProposalReload` | core/consensus/vote.go:165-294 | a serialisable proposal comes back with its transactions in normal form, or is refused at 65536 |
| `DecoderPanics.ProposalPanicsExactly` | core/consensus/vote.go:177-244 | the proposal decoder panics if and only if its votes and transaction count are in order and its batch does |
| `ProposalCodec.BodyInjective` | core/consensus/vote.go:247-294 | proposal bodies are one to one up to what the wire normalises |
| `ProposalCodec.ProposalSignBytesInjective` | core/consensus/vote.go:141-156 | on one chain, equal signing bytes of serialisable proposals mean equal bodies |
| `BatchWire.CoderObeysLaw` | core/tx/tx.go:447-520 | the law proposals and blocks ask of batches is their proved round trip |
| `BlockCodec.SerializeBlock` | core/statemachine/blockstore.go:83-110 | the stored block bytes or the first check that fails |
| `BlockCodec.DeserializeBlock` | core/statemachine/blockstore.go:112-175 | both stored versions are read as the parsing function says |
| `BlockCodec.BlockRoundTrip` | core/statemachine/blockstore.go:83-153 | a stored block of clean transactions is read back if and only if it has fewer than 65536 |
| `SnapshotCodec.EncodeRoundState` | core/consensus/persistence.go:14-56 | some order of the vote maps, written as the snapshot format |
| `SnapshotCodec.DecodeRoundState` | core/consensus/persistence.go:58-153 | the stateful reader is the parsing function, panics of the proposal parser included |
| `SnapshotCodec.SnapshotDecodes` | core/consensus/persistence.go:14-243 | a snapshot whose votes verify decodes exactly as its proposal does: to the round state with that proposal, or to its failure or panic |
| `SnapshotCodec.SnapshotRoundTrip` | core/consensus/persistence.go:14-243 | decoding restores every field whatever order the votes were written in, except that an unlocked state gets locked round -1 |
| `SnapshotCodec.AttestationRoundTrip` | core/consensus/persistence.go:155-217 | the stored attestation is read back |
| `SnapshotWire.ReachableStateRestored` | core/consensus/persistence.go:14-243 | the snapshot of any state a run of the engine reaches decodes to that state with its proposal reread, or fails when that does not come back or verify |
| `SnapshotWire.RestoredInFull` | core/consensus/persistence.go:14-243 | it restores the state in full if and only if the proposal, if any, is clean, below 65536 transactions and verifies |
| `SnapshotWire.RestartIsResume` | core/consensus/consensus.go:185-235 | starting from the bytes a reachable state was saved as is the restart of the step system, and decoding them never panics |
| `Ledger.ShiftTotal` | core/ledger/ledger.go:110-132 | a transfer or move changes the sum of balances by exactly its drift: nothing, the amount when an account pays itself, minus the amount when the second write overflows |
| `Ledger.ShiftConserves` | core/ledger/ledger.go:198-214 | it conserves the sum if and only if it is refused, moves nothing, or goes to another account with room |
| `Ledger.SelfTransferCreates` | core/ledger/ledger.go:116-129 | an account with 10 that sends itself 5 ends with 15, because both balances are read before either is written |
| `Ledger.BurnTotal` | core/ledger/ledger.go:163-171 | a burn lowers the sum by the amount |
| `Ledger.CreditTotal` | core/ledger/ledger.go:233-238 | a credit raises the sum by the amount |
| `Database.Buckets.TransferTx` | core/ledger/ledger.go:110-132 | nonce and both balances as the function on values says, also when it fails half way |
| `Database.Buckets.AdvanceNonceTx` | core/ledger/ledger.go:136-149 | writes the nonce exactly when it is the increment of the stored one |
| `Database.Buckets.MoveTx` | core/ledger/ledger.go:198-214 | both writes, or the one that was done before a failure |
| `Database.Buckets.BurnTx` | core/ledger/ledger.go:163-171 | the balance lowered, or the error |
| `Database.Buckets.CreditTx` | core/ledger/ledger.go:233-238 | the balance raised, or the error |
| `Database.Buckets.WriteBalance` | core/ledger/ledger.go:248-269 | only uint256 values are written |
| `Economics.BaseFee` | core/gas/gas.go:38-65 | never below the minimum of one |
| `Economics.BaseFeeMonotone` | core/gas/gas.go:38-65 | monotone in the previous fee and in the gas used |
| `Economics.BaseFeeBounds` | core/gas/gas.go:38-65 | falls by at most an eighth, and rises by at most an eighth while gas is within twice the target |
| `Economics.SharesSum` | core/mint/mint.go:42-64 | the shares of a reward add up to the reward |
| `Economics.SplitReward` | core/mint/mint.go:42-64 | equal shares with the remainder on the first, adding up to the reward |
| `Economics.AccrualDust` | core/gas/gas.go:70-127 | with a positive total bond, what Accrue pays falls short of the fees by less than the number of validators |
| `Economics.AccruedTotal` | core/gas/gas.go:70-127 | a completed Accrue raises the sum of balances by all fees but a dust below the number of validators |
| `Economics.CreditedEach` | core/gas/gas.go:99-123 | with every validator listed once, each has exactly its portion more on its fee account |
| `Economics.CreditedOthers` | core/gas/gas.go:99-123 | all other balances are untouched |
| `Database.Buckets.Accrue` | core/gas/gas.go:70-127 | the loop over validators, whose earlier credits stay when a later one overflows |
| `Staking.StakingTotals` | core/staking/staking.go:114-221 | bond, unbond, finalize, slash, miss and claim take from the sum of balances exactly what they report as burned |
| `Staking.BondKeepsSolvent` | core/staking/staking.go:114-130 | bonding keeps every escrow at least its recorded bond |
| `Staking.FinalizeKeepsSolvent` | core/staking/staking.go:189-203 | finalizing keeps it and never lacks funds |
| `Staking.SlashKeepsSolvent` | core/staking/staking.go:207-221 | slashing keeps it and never lacks funds |
| `Staking.MissKeepsSolvent` | core/staking/staking.go:320-336 | recording a miss keeps it, with the count below five, and never lacks funds |
| `Database.Buckets.BondTx` | core/staking/staking.go:114-130 | record and escrow as the function on values says |
| `Database.Buckets.UnbondTx` | core/staking/staking.go:152-163 | the record marked, or the error |
| `Database.Buckets.FinalizeTx` | core/staking/staking.go:189-203 | nothing before the lockup ends; then the bond returned and the record deleted |
| `Database.Buckets.SlashTx` | core/staking/staking.go:207-221 | the whole bond burned and the record deleted |
| `Database.Buckets.RecordMissTx` | core/staking/staking.go:320-336 | the miss counted, or a tenth of the bond owed and the count restarted |
| `Database.Buckets.ClaimTx` | core/gas/gas.go:148-161 | the whole fee account moved to the validator |
| `Effects.ShiftEffect` | core/ledger/ledger.go:110-132 | a transfer moves the amount from sender to receiver and touches nobody else |
| `Effects.TransferBack` | core/ledger/ledger.go:110-149 | sending the amount back with the next nonce restores every balance |
| `Effects.GasPassEffect` | core/statemachine/statemachine.go:624-639 | every account pays the fee for the gas of its own transactions, skipped ones included, and nothing else changes |
| `Effects.MintPassEffect` | core/statemachine/statemachine.go:658-667 | fee accounts grow by the rewards and nothing else changes |
| `Effects.RewardOf` | core/statemachine/statemachine.go:658-667 | the i-th validator is credited the i-th share |
| `Effects.BondCycle` | core/staking/staking.go:114-203 | bond, unbond and finalize after the lockup restore every balance and the records |
| `Effects.LockedUp` | core/staking/staking.go:189-203 | before the lockup ends finalizing changes nothing |
| `Effects.FewMisses` | core/staking/staking.go:320-336 | fewer than five misses only count |
| `Effects.FifthMiss` | core/staking/staking.go:320-336 | the fifth burns a tenth of the bond and restarts the count |
| `Database.Buckets.Deploy` | core/contract/contract.go:33-79 | endowment, contract moves and registration, or the error |
| `Database.Buckets.Call` | core/contract/contract.go:81-132 | start moves persist even when the function is unknown; then endowment and moves, or the error |
| `Database.Buckets.HostMoves` | core/contract/runtime.go:278-303 | host transfers one after another, failures ignored |
| `StateMachine.ExecuteTx` | core/statemachine/statemachine.go:473-596 | each of the nine types as the function on values says, with nonce faults skipped |
| `StateMachine.ExecuteTxs` | core/statemachine/statemachine.go:473-597 | the transaction loop |
| `StateMachine.ChargeGas` | core/statemachine/statemachine.go:624-639 | the fee loop with its uint64 counter |
| `StateMachine.PunishMisses` | core/statemachine/statemachine.go:641-656 | the miss loop with the burns it owes |
| `StateMachine.PayRewards` | core/statemachine/statemachine.go:658-667 | the reward loop |
| `StateMachine.BondedAmounts` | core/staking/staking.go:270-286 | the bonded validators without duplicates and their total stake |
| `StateMachine.CheckMisses` | core/statemachine/statemachine.go:443-455 | the first miss evidence that is invalid or repeated |
| `BlockApply.SignatureFaultIs` | core/statemachine/statemachine.go:241-285 | a signature fault is reported if and only if some transaction has one, and it is that of one of them, whichever worker reports first |
| `StateMachine.CheckSignatures` | core/statemachine/statemachine.go:241-285 | the fault of the transaction that is reported first |
| `StateMachine.CheckBlock` | core/statemachine/statemachine.go:394-455 | the error of the first check that fails, for signatures that of whichever failing transaction is reported first |
| `StateMachine.RecordSupply` | core/statemachine/statemachine.go:684-692 | the supply is written only where one is recorded, and a negative one refused |
| `StateMachine.ApplyBlock` | core/statemachine/statemachine.go:394-716 | a block is applied whole, with its metadata, or the database is as it was, also when storing the block or its telemetry fails after the metadata writes |
| `EmptyBlocks.MintFitsExactly` | core/statemachine/statemachine.go:658-667 | with each validator listed once, the reward pass succeeds if and only if every non-zero share fits on its fee account |
| `EmptyBlocks.RewardsFitBelowTotal` | core/statemachine/statemachine.go:658-667 | rewards fit while all balances and the reward together are below 2^256 |
| `EmptyBlocks.EmptyAppliesExactly` | core/statemachine/statemachine.go:394-716 | an empty block applies if and only if it has the next height and the current parent, every reward fits on its fee account, and tree and store succeed |
| `EmptyBlocks.FullFeeAccount` | core/statemachine/statemachine.go:658-667 | an empty block is refused when the first validator's fee account is full and the reward is positive |
| `EmptyBlocks.TameExactly` | core/consensus/consensus.go:575-637 | the hypothesis of the engine's retry bounds, at one chain: it holds if and only if the next empty block fits in the state the chain leads to and no empty proposal on top of it hashes to the nil hash |
| `Supply.TxTotal` | core/statemachine/statemachine.go:473-597 | a transaction changes the sum of balances by its drift and its burn |
| `Supply.SettledTotal` | core/statemachine/statemachine.go:456-692 | after all passes the balances are the next supply, the old gap and the block's drift together |
| `Supply.AppliedGap` | core/statemachine/statemachine.go:473-692 | an applied block moves the gap between balances and recorded supply by exactly its drift: what self-moves create, what overflowing contract transfers destroy, what the wrapped gas counter forgets; where no supply is recorded, also by what it issues; whether one is recorded stays |
| `Supply.SupplyRefusedExactly` | core/statemachine/statemachine.go:145-150 | the supply write is refused as negative if and only if the balances fall short of the gap with the drift |
| `Supply.RunGap` | core/statemachine/statemachine.go:394-716 | over any run of applied and failed blocks the gap moves by the drifts, and any unrecorded issue, of the applied blocks and nothing else |
| `Supply.NoBlockDrift` | core/statemachine/statemachine.go:473-692 | no drift without self-moves, with gas below 2^64 and supply below 2^256 |
| `Supply.SupplyIsTotal` | core/statemachine/statemachine.go:456-692 | then the tracked supply is the sum of all balances in every reachable state |
| `Supply.SupplyNeverRefused` | core/statemachine/statemachine.go:145-150 | and the supply write is never refused |
| `Supply.FullReceiverDestroys` | core/contract/runtime.go:278-303 | without the bound on supply a contract transfer to a full account destroys what it debited |
| `Solvency.ReachableSound` | core/statemachine/statemachine.go:394-716 | in every reachable state each escrow covers its recorded bond and each miss count is below five |
| `Solvency.EscrowNeverShort` | core/statemachine/statemachine.go:565-656 | so no finalize, slash or miss penalty of any block on a reachable state fails for insufficient funds |
| `Nonces.OutOfSequence` | core/statemachine/statemachine.go:384-387 | a transaction leaves the state untouched if and only if its nonce is not the sender's next |
| `Nonces.HistoryCounts` | core/ledger/ledger.go:136-149 | over any run of applied and failed blocks an account's accepted nonces each increment the one before |
| `Nonces.AcceptedNonces` | core/ledger/ledger.go:136-149 | from a fresh account they are 1, 2, ..., k, as uint64 |
| `Nonces.NoNonceTwice` | core/ledger/ledger.go:136-149 | none is accepted twice within 2^64 transactions |
| `Genesis.GenesisIsBase` | core/genesis/genesis.go:47-98 | genesis on an empty database starts with supply equal to balances, covered bonds and fresh nonces |
| `Genesis.GenesisOnce` | core/genesis/genesis.go:47-58 | a second genesis changes nothing |
| `Genesis.FromGenesis` | core/genesis/genesis.go:60-98 | from genesis every run keeps escrows covering bonds, and every driftless run keeps the supply exact |
| `Genesis.Apply` | core/genesis/genesis.go:47-98 | genesis as a whole or not at all |
| `HonestBond.BlockKeepsBond` | core/statemachine/statemachine.go:394-716 | a block in which an account neither finalizes nor is convicted keeps its bond, undiminished unless miss evidence names it |
| `HonestBond.HonestBondStays` | core/statemachine/statemachine.go:581-595 | over every run of the network with crashes and every run of applied and failed blocks, contract calls included, a validator that votes only through its engine, none of whose ballots got out while its slot's commit failed, and that does not finalize keeps its bond on record |
| `Nodes.NullFace` | core/node/node.go:120-151 | padding exists exactly for valid scales, with its scale, arity and signature |
| `Nodes.DerivedStable` | core/node/node.go:112-118 | a node given its derived signature recomputes to it |
| `NodeCodec.EncodeInjective` | core/node/node.go:53-102 | the node format is one to one |
| `NodeCodec.Serialize` | core/node/node.go:53-102 | the bytes, or the scale or arity error |
| `NodeCodec.CollidingBytes` | core/node/node.go:104-110 | two nodes with one root are a collision of the hash function |
| `RGTree.GrainChunk` | core/tree/tree.go:323-383 | the loop with running sums is the coarse-graining function |
| `RGTree.RebuildChunk` | core/tree/tree.go:190-207 | the padded parent of a chunk |
| `RGTree.CoarsenLayer` | core/tree/tree.go:258-321 | the layer above, or the first error |
| `RGTree.AtomicLayer` | core/tree/tree.go:220-256 | the leaves, or the first error |
| `RGTree.BuildTree` | core/tree/tree.go:66-103 | the layers and root of the leaves, or the error |
| `RGTree.Tree.Root` | core/tree/tree.go:106-116 | the cached root, or after an update the digest of the top node if it has one; on a valid tree the root of its layers |
| `RGTree.Dedupe` | core/tree/tree.go:132-145 | one update per index, ascending |
| `RGTree.PatchedExactly` | core/tree/tree.go:127-160 | with distinct indices each updated leaf is that of its transaction |
| `RGTree.Tree.ReplaceLeaves` | core/tree/tree.go:147-160 | leaves are replaced in order up to the first update whose index, leaf or transaction is refused, with its error |
| `RGTree.Tree.RebuildLevel` | core/tree/tree.go:167-183 | the parents of the marked positions are recomputed, in whatever order the dirty set is read, until one cannot be; all others stay as they are |
| `RGTree.Tree.UpdateLeaves` | core/tree/tree.go:127-187 | on any tree earlier calls may have left: a success yields the layers of building the new leaves from scratch if and only if every parent off the updated paths belonged to its children before; a failure keeps the cached root and the replacements made so far. On a tree on which no call has failed, it succeeds exactly when no update is refused and building from scratch does, and a failure leaves no trace exactly when an update is refused and each one before it put back the leaf that was there |
| `RGTree.RenewedExactly` | core/tree/tree.go:162-183 | after a rebuild along the marked paths the layers are a tree if and only if every other parent belonged to its children before |
| `RGTree.UnchangedExactly` | core/tree/tree.go:147-160 | replacements leave the leaves as they were if and only if each one is the leaf that was there |
| `RGTree.RefusedLate` | core/tree/tree.go:147-160 | a good update at index 0 before one that is out of range: the call fails and the leaf stays replaced |
| `RGTree.StaleSuccess` | core/tree/tree.go:127-187 | two calls: the first replaces leaf 0 and fails, the second replaces leaf 4 and succeeds, and the layers are not those of building their leaves |
| `Coarsening.StackIsLayers` | core/tree/tree.go:84-95 | layers that are coarsenings of each other are what building yields |
| `TreeStats.LevelExact` | core/tree/tree.go:323-383 | every node of level l carries the exact sum, sum of squares, count and contract count of its 4^l leaves |
| `TreeStats.LevelTotals` | core/tree/tree.go:323-383 | all levels have the same totals |
| `TreeStats.CauchySchwarz` | core/tree/tree.go:354-365 | the square of the sum is at most count times sum of squares |
| `TreeStats.NoClamp` | core/tree/tree.go:354-365 | the variance is floor(sumSq/n) - floor(sum/n)^2; the clamp at zero never fires |
| `TreeStats.RootNumbersIgnoreOrder` | core/tree/tree.go:66-103 | the root's numbers do not depend on the order of leaves and contract nodes |
| `TreeBuild.BuildSucceedsExactly` | core/tree/tree.go:66-103 | a tree of scale-one leaves is built if and only if they are at most 65536 and their sums fit a uint256 |
| `TreeBuild.BuildIgnoresOrder` | core/tree/tree.go:66-103 | whether it is built does not depend on the order of the leaves |
| `BlockTree.BlockNumbers` | core/statemachine/statemachine.go:599-622 | the inner nodes of a block's tree carry the counts, sums, spread and contract numbers of the items below them |
| `BlockTree.BlockProofs` | core/tree/proof.go:111-170 | the proof of each leaf of a block's tree is accepted against its root |
| `AppliedTree.PanicsExactly` | core/statemachine/statemachine.go:599-615 | building the state nodes of touched contracts panics if and only if one of them holds 2^128 or more |
| `AppliedTree.NoPanicBelowTotal` | core/statemachine/statemachine.go:599-615 | it does not panic while all balances together are below 2^128 |
| `AppliedTree.AppliedRoot` | core/statemachine/statemachine.go:599-623 | the state root of an applied block is the root of the tree of its transactions and touched contracts |
| `AppliedTree.AppliedProves` | core/statemachine/statemachine.go:599-623 | every transaction of an applied block has an inclusion proof that the new state root accepts |
| `ProofGeneration.GenerateProof` | core/tree/proof.go:111-170 | the path of the leaf, or the index error; on the layers of a failed update, a proof from the leaf along its positions, or the digest error |
| `ProofGeneration.GenerateFromTxs` | core/tree/proof.go:36-105 | the proof from transactions alone is the retained tree's, with the same errors |
| `TreeProofs.VerifyCanonical` | core/tree/proof.go:176-225 | accepts exactly the proofs that climb to the root |
| `TreeProofs.ProofComplete` | core/tree/proof.go:111-225 | the generated proof of every leaf is accepted |
| `TreeProofs.ProofSound` | core/tree/proof.go:176-225 | an accepted proof names a real leaf's child or the padding constant, or yields two different nodes with one digest, or has a child index above three and a node of the tree has the zero digest |
| `TreeProofs.PositionSound` | core/tree/proof.go:176-225 | a proof accepted along the positions of a leaf starts from that leaf's numbers and child, or yields two different nodes with one digest |
| `StaleProofs.StillTiered` | core/tree/tree.go:127-187 | the layers a failed update leaves still have a place for every group, so proof generation stays in bounds |
| `StaleProofs.StaleProofRejected` | core/tree/proof.go:111-225 | after a failed update, the proof generated for a leaf it replaced is rejected by the cached root, or yields two different nodes with one digest |
| `FastProof.Verifier.VerifyProof` | core/tree/proof.go:227-275 | the fixed-buffer verifier's answer, or its index panic, whatever the buffer held before |
| `FastProof.CanonicalIsFastWithScales` | core/tree/proof.go:176-275 | with child indices below four, the canonical verifier accepts if and only if the fast one does and every inner step has a valid scale above one |
| `FastProof.VerifiersAgree` | core/tree/proof.go:176-275 | on proofs of that shape the two answer alike |
| `FastProof.VerifiersDiffer` | core/tree/proof.go:229-275 | on every other proof they differ for the root it hashes to |
| `FastProof.FastSound` | core/tree/proof.go:229-275 | what the fast verifier accepts names a leaf or the padding constant, or yields a collision of the hash function on explicit bytes |

## Left out

- Agreement across rounds and liveness: the code drops its lock on retries, and timers are wall-clock.
- Changes of the validator set within a height: each height has one set for all its quorum checks.
- Networking, gossip, RPC, wallets, command-line tools, metrics, backups, telemetry records and block range reads.
- The WASM runtime and its host functions other than transfers, contract storage and contract state roots.
- Ed25519, SHA-256, hex, decimal, JSON and Unicode processing; nil pointers and nil big integers; negative bonds passed to `Accrue`.
- Determinism of a block's root when several contracts are touched: their nodes come in map order; only their numbers are shown to be order-free.
- The byte encoding of staking records, the non-transactional `Bond`, `Move`, `Burn`, `Seed`, `Claim` and `Mint` wrappers, and `Slash` outside a block.
- The order in which the validator bucket is read: results hold for every order.
- The padding mask of `coarsenLayer`, which only compares padding with itself.
- Concurrency of the signature and precheck workers: which fault is reported first is a parameter; nothing else depends on the schedule.
- StateMachine.ApplyBlock: the tree builder is a parameter, which AppliedTree fills in; its panic (AppliedTree.PanicsExactly) ends the process and rolls the transaction back, and is not an outcome of the method.
- ConsensusEngine.Engine.TryCommit: a failure of the disk while a block is applied is part of whether that block applies on that chain, not an outcome of one attempt.
- ConsensusEngine.Engine.HandleVote: the height counter is assumed to stay three below 2^64.
- Supply.SupplyIsTotal: also asks for a supply below 2^256, because contract transfers to a full account destroy value (Supply.FullReceiverDestroys).
- RGTree.Tree.UpdateLeaves: assumes leaves declared atomic have scale one, as deriveSignature yields.
- TreeProofs.ProofSound: for trees whose leaves have scale one and one child, as all trees of this repository have.
- Genesis.Apply: takes keys and amounts as already parsed or failed to parse.
