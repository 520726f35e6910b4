# A verified model of the AII finality stack

AII finalises blocks with a two-phase, stake-weighted Byzantine agreement: a leader drawn by
stake proposes, validators PRE-VOTE and PRE-COMMIT with BLS signatures, and two thirds of the
stake make a certificate.  This project models that stack in Dafny and proves what it is for, from
the stake arithmetic up to a network of nodes with faulty validators among them.  Four smaller
parts of the repository are modelled beside it: the Kademlia table, the block-sync state machine,
the federated bridge vault and the halving block subsidy.

`dafny verify dfyconfig.toml` checks everything.

## How it is built

Each component that the source updates in place is a class with the source's fields.  Its methods
are proved to follow pure functions on the component's value, and everything about runs is proved
about those functions, so the theorems hold of the objects too.

| layer | files |
|---|---|
| bits, bytes, ideal cryptography | `Bits`, `BigEndian`, `Crypto`, `Digests` |
| stake, quorums, leaders, tallies, certificates | `Validators`, `Tally` |
| one round | `Coordinator` |
| equivocation and accountability | `Slashing` |
| the chain engine | `Engine` (functions), `EngineObject` (object), `Delivery`, `Chain`, `Accountability` |
| the wire format | `Wire` |
| the gossip driver | `Gossip` (functions), `GossipObject` (object), `Proposals`, `Offers`, `Driving`, `Progress`, `Proposing`, `CatchUp`, `Voting`, `NodeChain`, `StaleProposal` |
| N nodes, a network, faulty validators | `Knowledge`, `Network` |
| beside consensus | `Kademlia`, `Sync`, `Federation`, `Emission` |

The main results:

- **Safety of the network** (`Network.SafetyOverRuns`, `Network.SafetyOverGuardedRuns`).  In every run of
  any number of nodes, with messages delayed, dropped, repeated, reordered and made up at will and
  validators holding up to a third of the stake signing anything at all, nodes that commit at the same
  height and round commit the same block, every commit is backed by a lock that no certificate for
  another block contradicts, no node ever signs two different votes of one kind for one height and round,
  and evidence that verifies names only faulty validators, as long as no node harvests a block numbered
  below a height it has voted at.  Only a made-up proposal that its receiver takes although it has committed
  its height can bring such a harvest about.
- **Accountability** (`Slashing.AccountableSafety`, `Slashing.TalliedVotesConvict`,
  `Slashing.ConvictedIff`).  Two conflicting certificates name validators with more than a third of the
  stake who signed both; the votes behind two conflicting tallies contain verifying evidence against
  them; and what the detector, the engine and a node convict is characterised exactly
  (`Accountability.EngineEvidenceIsExact`, `Accountability.NodeEvidenceIsExact`).
- **Progress** (`Progress.QuorumCommits`, `Driving.TimeoutMovesOn`, `Driving.NextLeaderIsAccepted`).  A node
  that receives a valid proposal and the votes of a quorum, in any order, commits that block; a timeout opens
  exactly the next round, whose leader is accepted.  No node proposes twice at one height and round
  (`Proposing.NeverProposesTwice`).
- **Order does not matter** (`Delivery.PhaseAfterDeliveries`, `Delivery.DeliveryOrderIrrelevant`).
  Whatever the interleaving of a proposal and votes, early votes included, the phase reached is
  decided by two sums of stake.
- **The chain** (`Chain.ChainOverRuns`, `NodeChain.NodeRunKeepsChain`,
  `NodeChain.NodesServeTheirChain`).  The commits of an engine, or of a node under the driver, stay a linked,
  certified chain with a cache of exactly its last 64 blocks, if and only if no badly built block is
  harvested, and a lagging node that fetches from that cache over the wire ends at the same head.
- **The wire format** (`Wire.Decode`) is a bijection between typed messages within the caps and
  accepted byte strings.
- **One tick of the driver** (`GossipObject.BftGossip.Tick`) is a run of the node steps that the
  theorems above are about.

Four properties one would expect are false of the code.  Each has a lemma with inputs that break it and
a lemma that says exactly when it, or the invariant behind it, holds:

- the quorum threshold wraps from 2^63 units of stake (`Validators.WrappedThresholdSplitsQuorums`,
  `Validators.ThresholdIsTwoThirdsIffNoWrap`);
- agreement at one height and round, and with it single signing, can fail when a node harvests a block numbered
  at or below its head, which a faulty leader can bring about with a proposal for a committed height
  (`StaleProposal.StaleProposalsBreakAgreement`).  A node stays ahead of its votes exactly as long as no harvest
  falls behind them (`Voting.NodeStepKeepsInv`), and a harvest moves forward exactly when the block's number exceeds
  the head's (`Voting.HarvestAdvancesIff`).  Exactly then, too, commits stay a chain and catching up agrees with
  committing live (`NodeChain.NodeRunKeepsChain`, `Chain.ApplyKeepsChain`, `Chain.CatchUpRefinesLiveIff`);
- recorded equivocations need not convict, because votes are recorded before their signatures are checked and
  the first one is kept (`Slashing.UnsignedVotesAreReported`, `Slashing.ForgedFirstVoteMasks`;
  `Slashing.ConvictedIff`);
- the release threshold of a federation counts indices, not keys (`Federation.SharedKeyBundle`;
  `Federation.ThresholdCountsKeysIff`).

## Assumptions

- A BLS signature is the formal sum of the (key, message) pairs signed into it, so aggregation forgets
  order but not multiplicity, and FastAggregateVerify (section 3.3.4 of
  draft-irtf-cfrg-bls-signature) accepts exactly the sum over the listed keys.
- Validators sign a structured statement (phase, block, height, round).  `Digests` proves that the
  bytes the source hashes determine all four fields, and the hash is taken as collision free.
- VRF verification, block hashing, the leader draw's hash, block and body codecs and point compression are
  parameters; what is needed of them is stated where it is used.
- Block bodies are parameters of proposing; clock ticks and timeouts are events.
- The PRE-VOTE and PRE-COMMIT copies of votes, talliers and certificates differ only in the digest they
  sign, so one definition with a `VoteKind` serves both.
- Safety over runs assumes, beyond the fault bound, that doubling the total stake fits in 64 bits and that no
  node harvests a block numbered below a height it has voted at (`Network.Enabled`).  `SafetyOverGuardedRuns`
  replaces the latter by two assumptions: different headers have different hashes, and no receiver takes,
  although it has committed its height, a proposal that no node sent.

## Model

| member | source | states |
|---|---|---|
| Bits.HighestBitBounds | crates/aii-consensus-bft/src/bft.rs:488-495 | the bounds test on the highest set bit accepts exactly the bitmaps all of whose bits lie below n |
| Bits.PopCountIsCardinality | crates/aii-crosschain/src/federation.rs:225 | count_ones of a bitmap is the number of distinct signer indices |
| BigEndian.FromToBytes | crates/aii-consensus-bft/src/wire.rs:190-191 | reading back a big-endian field of sufficient width returns the number |
| BigEndian.ToFromBytes | crates/aii-consensus-bft/src/wire.rs:402-412 | writing back the number read from a field gives the same bytes |
| Digests.VotePreimageInjective | crates/aii-consensus-bft/src/bft.rs:274-281 | the bytes hashed for a vote determine phase, block, height and round, so no signature serves two statements |
| Digests.LeaderPreimageInjective | crates/aii-consensus-bft/src/bft.rs:184-190 | the VRF input determines height, round and seed |
| Digests.VotePreimageLayout | crates/aii-consensus-bft/src/bft.rs:274-281 | the hashed bytes are the domain tag of the phase, then the block, the height and the round, each at its place and in big-endian |
| Digests.LeaderPreimageLayout | crates/aii-consensus-bft/src/bft.rs:184-190 | the VRF input is height, round and seed, each at its place and in big-endian |
| Validators.NewValidatorSet | crates/aii-consensus-bft/src/bft.rs:87-110 | accepts exactly the valid sets, with the true total, and otherwise returns the error of the first failed check |
| Validators.ThresholdIsTwoThirdsIffNoWrap | crates/aii-consensus-bft/src/bft.rs:126-128 | reaching the threshold means strictly more than two thirds of the stake if and only if doubling the total fits in 64 bits |
| Validators.WrappedThresholdSplitsQuorums | crates/aii-consensus-bft/src/bft.rs:126-128 | with 2^63 units of stake two disjoint sets are quorums |
| Validators.QuorumIntersection | crates/aii-consensus-bft/src/bft.rs:126-128 | two quorums share more than a third of the stake |
| Validators.QuorumsShareAnHonestIndex | crates/aii-consensus-bft/src/bft.rs:126-128 | if at most a third of the stake is faulty, two quorums share an index that is not |
| Validators.SelectLeader | crates/aii-consensus-bft/src/bft.rs:150-167 | the accumulation loop returns the index whose stake interval contains the draw; it never saturates or falls through |
| Validators.LeaderIsStakeProportional | crates/aii-consensus-bft/src/bft.rs:150-167 | of the T possible draws exactly stake_i select validator i, so none with zero stake is selected |
| Validators.LeaderHoldsDraw | crates/aii-consensus-bft/src/bft.rs:150-167 | the leader of a height, round and seed is the one validator whose stake interval contains the draw for exactly these three |
| Tally.Tallier.constructor | crates/aii-consensus-bft/src/bft.rs:380-392 | a fresh tallier is consistent and has no voters |
| Tally.Tallier.Submit | crates/aii-consensus-bft/src/bft.rs:403-440 | the first failed check decides the error and nothing changes; an accepted vote adds exactly its validator; bitmap, set, stake and signatures stay in agreement; quorum is reported exactly when reached |
| Tally.Tallier.TryFinalize | crates/aii-consensus-bft/src/bft.rs:444-456 | a certificate is produced exactly at quorum, and it verifies under the tallier's own set although signatures were stored in arrival order |
| Tally.TallyCountsSupporters | crates/aii-consensus-bft/src/bft.rs:556-610 | after any submissions, with duplicates and forgeries, the bitmap is the set of validators with a genuine vote, and a verifying certificate exists exactly when they hold a quorum |
| Tally.CollectSigners | crates/aii-consensus-bft/src/bft.rs:497-504 | the loop over the bitmap collects the keys and the unsaturated stake of exactly the set bits |
| Tally.VerifyCertificate | crates/aii-consensus-bft/src/bft.rs:638-664 | accepts exactly the certificates that list known validators with a quorum and carry the sum of their signatures |
| Tally.CertRefusalSaysWhy | crates/aii-consensus-bft/src/bft.rs:638-664 | a refused certificate that names unknown validators is refused for the highest of them, any other for its signature |
| Tally.CertSignersSigned | crates/aii-consensus-bft/src/bft.rs:486-512 | everyone named by a verifying certificate signed exactly its statement |
| Coordinator.RunKeepsInv | crates/aii-consensus-bft/src/coordinator.rs:152-270 | after every event sequence, open tallies are below quorum, every held certificate verifies for its own statement and the lock is from an earlier round until this round forms its own |
| Coordinator.ProposalAcceptedIff | crates/aii-consensus-bft/src/coordinator.rs:152-175 | a proposal is accepted if and only if none is held and its proof is the VRF output, for exactly this height, round and seed, of the validator whose stake interval contains the draw for them |
| Coordinator.TimeoutOpensNextRound | crates/aii-consensus-bft/src/coordinator.rs:260-270 | a timeout in any phase before the commit gives the next round, saturating, without a proposal and with the same lock |
| Coordinator.CommittedIsAbsorbing | crates/aii-consensus-bft/src/coordinator.rs:260-263 | once committed, no event sequence changes anything |
| Coordinator.RunAdvances | crates/aii-consensus-bft/src/coordinator.rs:206-221 | the round never goes back, and a lock survives timeouts and is only replaced by one from a later round |
| Coordinator.CommitMatchesLock | crates/aii-consensus-bft/src/coordinator.rs:235-255 | however the height was driven, the commit certificate verifies and its block is the one locked in that round by a verifying PRE-VOTE certificate |
| Coordinator.RoundCoordinator.constructor | crates/aii-consensus-bft/src/coordinator.rs:80-94 | a new coordinator awaits a proposal in round 0, unlocked |
| Coordinator.RoundCoordinator.LeaderIndexNow | crates/aii-consensus-bft/src/coordinator.rs:124-126 | the validator whose stake interval contains the draw for the current height, round and seed |
| Coordinator.RoundCoordinator.SubmitProposal | crates/aii-consensus-bft/src/coordinator.rs:152-175 | follows the proposal step, which `ProposalAcceptedIff` characterises; the phase keeps fixing which optional fields are set |
| Coordinator.RoundCoordinator.SubmitPrevote | crates/aii-consensus-bft/src/coordinator.rs:183-227 | follows the PRE-VOTE step; no expected field is ever absent |
| Coordinator.RoundCoordinator.SubmitPrecommit | crates/aii-consensus-bft/src/coordinator.rs:235-255 | follows the PRE-COMMIT step; no expected field is ever absent |
| Coordinator.RoundCoordinator.FireTimeout | crates/aii-consensus-bft/src/coordinator.rs:260-270 | before the commit: the round is one higher, saturating, the phase is awaiting a proposal, block, tallies and certificates are gone and the lock is kept; when committed nothing changes |
| Slashing.FirstVoteIsKept | crates/aii-consensus-bft/src/slashing.rs:55-82 | after any recordings the detector holds, for each validator, height and round, the vote recorded first |
| Slashing.DetectorIsExact | crates/aii-consensus-bft/src/slashing.rs:55-82 | every report names two recorded votes that conflict, and any two conflicting recordings, however far apart, cause a report for their slot |
| Slashing.SlashableIff | crates/aii-consensus-bft/src/slashing.rs:134-195 | evidence passes verification if and only if it is two genuine votes of one validator, phase, height and round for different blocks |
| Slashing.ReportsAreBreaks | crates/aii-consensus-bft/src/slashing.rs:55-82 | the reports are exactly the pairs of a slot's first recording and a later one for another block |
| Slashing.ConvictedIff | crates/aii-consensus-bft/src/slashing.rs:55-195 | some report for a slot passes evidence verification if and only if the vote recorded first for the slot is genuine and a later genuine one names another block |
| Slashing.ForgedFirstVoteMasks | crates/aii-consensus-bft/src/engine.rs:787-795 | a forged vote recorded first masks two genuine conflicting votes that would convict their validator |
| Slashing.UnsignedVotesAreReported | crates/aii-consensus-bft/src/slashing.rs:55-67 | a vote that its validator never signed is reported against a later one all the same, and the report convicts nobody |
| Slashing.AccountableSafety | crates/aii-consensus-bft/src/slashing.rs:134-195 | two verifying certificates of one phase, height and round for different blocks name common signers with more than a third of the stake; each signed both, and any votes of one validator for the two blocks are verifying evidence |
| Slashing.TalliedVotesConvict | crates/aii-consensus-bft/src/slashing.rs:134-195 | if two tallies of any submitted votes reach quorums for conflicting blocks, validators with more than a third of the stake have a submitted vote in each that together are verifying evidence |
| Slashing.ObserverConvicts | crates/aii-consensus-bft/src/slashing.rs:55-195 | a detector that recorded the votes of both tallies, the first of each slot genuine, reports verifying evidence against every one of those validators |
| Slashing.EquivocationDetector.RecordPrevote | crates/aii-consensus-bft/src/slashing.rs:55-67 | follows the recording step on the PRE-VOTE map |
| Slashing.EquivocationDetector.RecordPrecommit | crates/aii-consensus-bft/src/slashing.rs:70-82 | follows the recording step on the PRE-COMMIT map |
| Engine.Feed | crates/aii-consensus-bft/src/engine.rs:873-901 | what is left over after replaying a buffer is no longer than the buffer, and shorter if any vote was counted, which makes the drain loop terminate |
| Engine.ActiveCoordInv | crates/aii-consensus-bft/src/engine.rs:932-940 | the coordinator that takes the next event is at head + 1 with the engine's seed and set |
| Engine.DrainContinues | crates/aii-consensus-bft/src/engine.rs:856-906 | draining keeps height, round, set, seed and block, and touches only the coordinator and the buffers |
| Engine.RemoteProposalKeepsInv | crates/aii-consensus-bft/src/engine.rs:758-773 | a remote proposal keeps the engine invariant, accepted or not |
| Engine.RemoteVoteKeepsInv | crates/aii-consensus-bft/src/engine.rs:787-843 | a remote vote keeps the engine invariant, whatever becomes of it |
| Engine.CastProposalKeepsInv | crates/aii-consensus-bft/src/engine.rs:650-684 | proposing keeps the engine invariant |
| Engine.CastVoteKeepsInv | crates/aii-consensus-bft/src/engine.rs:704-754 | voting keeps the engine invariant |
| Engine.TickTimeoutKeepsInv | crates/aii-consensus-bft/src/engine.rs:919-928 | a timeout keeps the engine invariant |
| Engine.FastForwardKeepsInv | crates/aii-consensus-bft/src/engine.rs:408-426 | fast-forwarding a valid engine never fails and keeps the invariant |
| Engine.RotateKeepsInv | crates/aii-consensus-bft/src/engine.rs:470-490 | rotation keeps the engine invariant |
| Delivery.DrainReachesFixpoint | crates/aii-consensus-bft/src/engine.rs:856-906 | the drain stops where every vote still buffered is above the head and rejected for phase, round or height |
| Delivery.WaitsMeans | crates/aii-consensus-bft/src/engine.rs:873-901 | a vote is kept waiting exactly if the round has no proposal or is in the other phase, or the vote names the round's block at another height or round |
| Delivery.DrainAccounts | crates/aii-consensus-bft/src/engine.rs:856-906 | every buffered vote ends buffered, stale, counted, or refused for good |
| Delivery.RemoteVoteAccounts | crates/aii-consensus-bft/src/engine.rs:787-843 | a vote that arrives, and every vote waiting at that time, is afterwards waiting, stale, counted, or refused for good |
| Delivery.PhaseAfterDeliveries | crates/aii-consensus-bft/src/engine.rs:758-906 | for every interleaving of proposals and votes, the first valid proposal is the round's block and the phase is decided by who genuinely pre-voted and pre-committed it |
| Delivery.DeliveryOrderIrrelevant | crates/aii-consensus-bft/src/engine.rs:758-906 | the same messages in any order and multiplicity reach the same phase for the same block |
| EngineObject.FeedVotes | crates/aii-consensus-bft/src/engine.rs:873-901 | the replay loop follows the specification, vote by vote |
| EngineObject.CacheRecentBlock | crates/aii-consensus-bft/src/engine.rs:226-243 | inserting and evicting the lowest while oversized keeps exactly the 64 highest heights |
| EngineObject.EvictionKeepsHighest | crates/aii-consensus-bft/src/engine.rs:235-242 | evicting the lowest of an oversized cache does not change which entries are highest |
| EngineObject.BftEngine.constructor | crates/aii-consensus-bft/src/engine.rs:247-268 | a new engine stands at genesis with nothing active and satisfies the invariant |
| EngineObject.BftEngine.CurrentRoundState | crates/aii-consensus-bft/src/engine.rs:377-382 | reports height, round and phase of the active coordinator |
| EngineObject.BftEngine.LeadsNow | crates/aii-consensus-bft/src/engine.rs:430-451 | whether the draw for the active round, or for round 0 of the next height if none is active, falls into this node's stake interval |
| EngineObject.BftEngine.EnsureCoordinator | crates/aii-consensus-bft/src/engine.rs:932-940 | an active coordinator exists afterwards and nothing else changed |
| EngineObject.BftEngine.DrainPendingVotes | crates/aii-consensus-bft/src/engine.rs:856-906 | the drain loop terminates and equals the recursive specification |
| EngineObject.BftEngine.SubmitRemoteProposal | crates/aii-consensus-bft/src/engine.rs:758-773 | follows the remote-proposal step, errors included |
| EngineObject.BftEngine.SubmitRemoteVote | crates/aii-consensus-bft/src/engine.rs:787-843 | follows the remote-vote step: record, drop stale, buffer early, count, drain; `Accountability` and `Delivery` say what it records and counts |
| EngineObject.BftEngine.DrainEvidence | crates/aii-consensus-bft/src/engine.rs:912-915 | hands over all parked evidence and forgets it |
| EngineObject.BftEngine.CastProposal | crates/aii-consensus-bft/src/engine.rs:650-684 | follows the proposing step, errors included |
| EngineObject.BftEngine.CastVote | crates/aii-consensus-bft/src/engine.rs:704-754 | follows the voting step for either phase, errors included |
| EngineObject.BftEngine.TickTimeout | crates/aii-consensus-bft/src/engine.rs:919-928 | follows the timeout step, which `Driving.TimeoutMovesOn` characterises |
| EngineObject.BftEngine.FastForwardToRound | crates/aii-consensus-bft/src/engine.rs:408-426 | a fresh coordinator timed out as often as asked, at head + 1 |
| EngineObject.BftEngine.TryHarvestCommitted | crates/aii-consensus-bft/src/engine.rs:549-571 | follows the harvest step: head, seed and cache move, round and proposal are cleared |
| EngineObject.BftEngine.AdoptSyncedBlock | crates/aii-consensus-bft/src/engine.rs:614-639 | follows the adoption step: the first failed check decides the error and nothing changes |
| EngineObject.BftEngine.RotateValidatorSet | crates/aii-consensus-bft/src/engine.rs:470-490 | follows the rotation step, refused while a round is active |
| Accountability.EngineEvidenceIsExact | crates/aii-consensus-bft/src/engine.rs:787-843 | over any operations on a new engine, the evidence handed over or still parked is exactly the pairs of a slot's first delivered vote and a later delivered one for another block |
| Accountability.EngineConvicts | crates/aii-consensus-bft/src/engine.rs:787-843 | if two genuine votes of one slot for different blocks were delivered, and the first of that slot is genuine, some of that evidence passes verification |
| Accountability.NodeEvidenceIsExact | crates/aii-consensus-bft/src/gossip.rs:381-458 | over any run of a node, the same holds of the votes it received that were not from beyond its next height |
| Chain.CacheSlides | crates/aii-consensus-bft/src/engine.rs:226-243 | caching the next height keeps exactly the last 64 commits |
| Chain.ApplyKeepsChain | crates/aii-consensus-bft/src/engine.rs:549-639 | an operation of the multi-validator path keeps the chain of commits, head and cache if and only if it does not harvest a block badly built on the head (nor rotate to something that is no validator set); refused or uncommitted proposals do no harm |
| Chain.ChainOverRuns | crates/aii-consensus-bft/src/engine.rs:549-590 | after any run from a new engine in which no badly built block is harvested, an active coordinator is at head + 1 with the engine's seed and set, commits form a linked, consecutively numbered chain of certified blocks ending at the head, and the cache answers exactly for the last min(64, commits) heights |
| Chain.CatchUpRefinesLiveIff | crates/aii-consensus-bft/src/engine.rs:614-639 | adopting a harvested block gives the head hash, number, timestamp and seed of harvesting it live if and only if the proposal was built on that head with its VRF output as mix hash |
| Chain.ServedBlockIsAdopted | crates/aii-consensus-bft/src/engine.rs:585-639 | anything the cache serves is adopted by every engine at its parent with the set that formed it, and gives the server's head of that time |
| Wire.EncodeMessage | crates/aii-consensus-bft/src/wire.rs:178-231 | the bytes have the announced length and, for a typed message within the caps, are the bytes that decode to it |
| Wire.EncodeLength | crates/aii-consensus-bft/src/wire.rs:164-173 | the encoding of a typed message has the announced length and starts with its tag |
| Wire.ProposalLayout | crates/aii-consensus-bft/src/wire.rs:181-204 | a proposal is tag 0, height, round, block hash, the three proof parts, coinbase, body length and body at the documented offsets |
| Wire.VoteLayout | crates/aii-consensus-bft/src/wire.rs:205-214 | a vote is tag 1 or 2, block hash, height, round, index and signature at the documented offsets, 145 bytes |
| Wire.RequestLayout | crates/aii-consensus-bft/src/wire.rs:215-218 | a block request is tag 3 and the height, 9 bytes |
| Wire.ResponseLayout | crates/aii-consensus-bft/src/wire.rs:219-227 | a block response is tag 4, block length, block and certificate at the documented offsets |
| Wire.CertLayout | crates/aii-consensus-bft/src/wire.rs:394-400 | a certificate is block hash, height, round, signer bitmap and signature at the documented offsets, 156 bytes |
| Wire.Decode | crates/aii-consensus-bft/src/wire.rs:236-246 | returns a message only if it encodes to exactly the input, returns every such message, and otherwise the error of the input; no slice is out of range on any input |
| Wire.DecodeProposal | crates/aii-consensus-bft/src/wire.rs:262-313 | a proposal is accepted only if re-encoding it gives the input byte for byte |
| Wire.DecodeVote | crates/aii-consensus-bft/src/wire.rs:315-351 | a vote is accepted only if re-encoding it gives the input byte for byte |
| Wire.DecodeBlockRequest | crates/aii-consensus-bft/src/wire.rs:353-362 | a block request is accepted only if re-encoding it gives the input byte for byte |
| Wire.DecodeBlockResponse | crates/aii-consensus-bft/src/wire.rs:364-392 | a block response is accepted only if re-encoding it gives the input byte for byte |
| Wire.DecodeCert | crates/aii-consensus-bft/src/wire.rs:402-423 | a certificate is accepted only if re-encoding it gives the input byte for byte |
| Wire.EncodeInjective | crates/aii-consensus-bft/src/wire.rs:178-231 | two typed messages with the same bytes are the same message |
| Wire.AcceptedIffWithinCap | crates/aii-consensus-bft/src/wire.rs:262-392 | a typed message survives the codec exactly when its variable part is within the cap |
| Gossip.NodeStepKeepsEngineInv | crates/aii-consensus-bft/src/gossip.rs:154-198 | every message, tick and timeout keeps the engine invariant |
| GossipObject.BftGossip.constructor | crates/aii-consensus-bft/src/gossip.rs:108-115 | a new driver has voted nowhere and sent nothing |
| GossipObject.BftGossip.AutoHarvest | crates/aii-consensus-bft/src/gossip.rs:130-134 | the loop harvests at most once and follows the specification |
| GossipObject.BftGossip.DrainHarvested | crates/aii-consensus-bft/src/gossip.rs:122-124 | hands over the harvested blocks in commit order and forgets them |
| GossipObject.BftGossip.RequestCatchupIfFutureHeight | crates/aii-consensus-bft/src/gossip.rs:460-482 | exactly a message from beyond the next height is held back, and then follows the request step, which `CatchUp.HintIsAnswered` characterises |
| GossipObject.BftGossip.HandleProposal | crates/aii-consensus-bft/src/gossip.rs:516-543 | jump to the round if due, rebuild the block, check its hash, submit it |
| GossipObject.BftGossip.HandleBlockResponse | crates/aii-consensus-bft/src/gossip.rs:484-504 | an adopted block is handed to the host and no longer counts as requested; anything else changes nothing |
| GossipObject.BftGossip.Dispatch | crates/aii-consensus-bft/src/gossip.rs:381-458 | follows the dispatch step for all five messages |
| GossipObject.BftGossip.Propose | crates/aii-consensus-bft/src/gossip.rs:203-240 | follows the proposing step and notes where it proposed |
| GossipObject.BftGossip.MaybePropose | crates/aii-consensus-bft/src/gossip.rs:267-303 | proposes only as leader and once per height and round |
| GossipObject.BftGossip.MaybeVote | crates/aii-consensus-bft/src/gossip.rs:305-349 | votes once per height and round and notes it |
| GossipObject.BftGossip.VoteAndRetransmit | crates/aii-consensus-bft/src/gossip.rs:250-262 | votes if due, then sends the latest messages of the phase again |
| GossipObject.BftGossip.DrivePhase | crates/aii-consensus-bft/src/gossip.rs:243-265 | follows the per-phase action and counts what it sends |
| GossipObject.BftGossip.Tick | crates/aii-consensus-bft/src/gossip.rs:154-198 | handling an inbox of raw payloads and driving the round is a run of node steps over the payloads that decode, leaves nothing to harvest, and counts messages handled and sent |
| GossipObject.StepRests | crates/aii-consensus-bft/src/gossip.rs:126-134 | one harvest after each step is enough: no step leaves a committed block behind |
| GossipObject.InboxIsRun | crates/aii-consensus-bft/src/gossip.rs:163-172 | payloads that do not decode change nothing, so an inbox is a run of deliveries |
| Proposals.LeaderProposes | crates/aii-consensus-bft/src/gossip.rs:267-303 | only the elected leader proposes, a block extending its head by one slot with a proof that verifies, and the message describes that block |
| Proposals.FollowersRebuildTheBlock | crates/aii-consensus-bft/src/gossip.rs:516-543 | every follower with the leader's head, at the leader's round or an earlier one, rebuilds exactly the leader's block from the fields of the message and accepts it |
| Driving.TimeoutMovesOn | crates/aii-consensus-bft/src/engine.rs:919-928 | below the last round, a timeout before the commit takes the engine to exactly the next round of the same height, awaiting a proposal, with the lock kept, the proposal dropped and exactly the waiting votes that are not stale still waiting |
| Driving.ClockOpensNextRound | crates/aii-consensus-bft/src/engine.rs:919-928 | a node whose clock fires before the commit is in the next round, awaiting a proposal, with its flags kept and nothing sent or committed |
| Driving.NextLeaderIsAccepted | crates/aii-consensus-bft/src/engine.rs:758-773 | in the round a timeout opens, the proposal of the validator drawn for that round is accepted and held |
| Driving.ProposesIff | crates/aii-consensus-bft/src/gossip.rs:203-240 | a node asked to propose sends its own block, notes the position and opens the tally empty if its proof shows that it holds the draw, and otherwise sends nothing |
| Driving.CastsIff | crates/aii-consensus-bft/src/engine.rs:704-754 | in the phase that collects them, a node's vote is cast and counted once, under its index, if and only if that index carries its key and is not counted yet |
| Driving.RefusedProposalSaysWhy | crates/aii-consensus-bft/src/engine.rs:650-684 | a node's own proposal is refused because another validator, which the error names, holds the draw, a proposal is held already, or the proof does not verify |
| Driving.RefusedVoteSaysWhy | crates/aii-consensus-bft/src/engine.rs:704-754 | a node's own vote is refused for no round, the wrong phase, an unknown index, a vote counted before or a key that is not that of its index, in this order |
| Driving.LeaderOpensTheHeight | crates/aii-consensus-bft/src/gossip.rs:186-240 | without a coordinator, the validator drawn for round 0 of the next height sends exactly its own proposal on its head, and anyone else sends nothing |
| Driving.FirstBlockIsProposed | crates/aii-consensus-bft/src/engine.rs:247-268 | a node that has just started sends a proposal exactly if the draw from the initial seed falls to its index and its proof shows it, for a block on the genesis hash, one above its number and one slot after its timestamp |
| Driving.LeaderOpensTheRound | crates/aii-consensus-bft/src/gossip.rs:243-303 | in a round without a proposal, the validator drawn for it sends its own proposal unless it has proposed there, and otherwise the last proposal is repeated |
| Driving.VotesAreSent | crates/aii-consensus-bft/src/gossip.rs:250-379 | in a voting phase a node sends its signed vote for the block held, unless it has voted there or its key is not that of its index, and repeats the latest messages of the phase |
| Driving.LateProposalChangesNothing | crates/aii-consensus-bft/src/gossip.rs:516-543 | once a proposal is held, another for the same or an earlier round, or for a committed height, changes nothing |
| Driving.LaterRoundIsJoined | crates/aii-consensus-bft/src/gossip.rs:525-534 | a proposal for the next height takes its receiver to the later of its own and the proposal's round, whether or not the proposal is accepted |
| Driving.BodyBelongsToHash | crates/aii-consensus-bft/src/gossip.rs:506-543 | the block taken from a message has the announced hash, so its body has the transactions root of the announced header |
| Driving.RotationAllowedIff | crates/aii-consensus-bft/src/engine.rs:470-490 | rotation is accepted if and only if the index is in the new set and no round is active, and a refused one changes nothing |
| Driving.RotationTakesEffect | crates/aii-consensus-bft/src/engine.rs:470-490 | after a rotation nothing collected before remains, the proposal of the validator drawn from the new set is accepted, and the node's vote counts under its new index if and only if that index carries its key |
| Proposing.NeverProposesTwice | crates/aii-consensus-bft/src/gossip.rs:200-303 | over any run from a fresh start whose harvests advance, a node never sends two different proposals for one height and round |
| Progress.QuorumCommits | crates/aii-consensus-bft/src/gossip.rs:154-198 | if the messages a node receives carry, in any order, a valid proposal and genuine votes of a quorum for it in each phase, then at some message the node commits exactly that block, with a verifying certificate, and it committed nothing before |
| Offers.NodeStepOffers | crates/aii-consensus-bft/src/gossip.rs:243-379 | whatever happens to a node, every proposal it sends, new or repeated, is for a block numbered one above the block it extends |
| Offers.OfferIsNeverTakenStale | crates/aii-consensus-bft/src/gossip.rs:516-543 | such a proposal is not taken, however late and often it arrives, by any node that has committed its height |
| Offers.StaysOnTrack | crates/aii-consensus-bft/src/gossip.rs:154-198 | a node that takes no proposal for a committed height only ever harvests blocks numbered above its head |
| CatchUp.SignersFit | crates/aii-consensus-bft/src/wire.rs:394-400 | the bitmap of a verifying certificate fits the 128 bits the wire gives it |
| CatchUp.ResponseSurvives | crates/aii-consensus-bft/src/wire.rs:364-392 | a served block with its certificate is what its own bytes decode to |
| CatchUp.HintIsAnswered | crates/aii-consensus-bft/src/gossip.rs:460-482 | a message from beyond the next height makes a node broadcast exactly a request for the next block, or nothing if it has asked for it; the engine is unchanged |
| CatchUp.ServesItsChain | crates/aii-consensus-bft/src/gossip.rs:427-440 | a node on a chain answers a request exactly for the last 64 heights it committed, with the block and certificate of that height |
| CatchUp.FetchAdopts | crates/aii-consensus-bft/src/gossip.rs:460-504 | one hint, the request it causes, the answer and its delivery adopt exactly the next commit, hand it over and forget the request |
| CatchUp.CatchUpReachesServer | crates/aii-consensus-bft/src/gossip.rs:460-504 | a lagging node that hears messages from beyond its next height, asks for exactly its next blocks and gets a peer's answers over the wire adopts the missing commits in order and nothing else, and ends with the peer's head hash, number, timestamp and seed |
| NodeChain.NodeStepKeepsChain | crates/aii-consensus-bft/src/gossip.rs:130-198 | an event of a node keeps its chain if and only if the block it harvests, if any, is numbered above the head |
| NodeChain.NodeRunKeepsChain | crates/aii-consensus-bft/src/gossip.rs:130-198 | from a fresh start, whatever is delivered, a node's commits stay a linked, consecutively numbered, certified chain ending at its head, with the last 64 in its cache, if and only if every block it harvests is numbered above its head |
| NodeChain.NodesServeTheirChain | crates/aii-consensus-bft/src/gossip.rs:439-504 | a lagging node whose requests, caused by messages from later heights, are answered by a node whose harvests advance adopts exactly that node's missing commits and ends at its head |
| NodeChain.CommitsAreHandedOver | crates/aii-consensus-bft/src/gossip.rs:117-134 | over any run the blocks handed to the host are exactly the committed ones, harvested or adopted, in order |
| Voting.HarvestAdvancesIff | crates/aii-consensus-bft/src/engine.rs:549-571 | a harvest moves the engine to a later height, and keeps every reached position behind it, if and only if the proposed block's number exceeds the head's |
| Voting.RemoteProposalStepsOn | crates/aii-consensus-bft/src/engine.rs:758-773 | no proposal, accepted or not, moves the engine to an earlier height or round |
| Voting.RemoteVoteStepsOn | crates/aii-consensus-bft/src/engine.rs:787-843 | a vote never moves the engine to an earlier height or round |
| Voting.FastForwardStepsOn | crates/aii-consensus-bft/src/gossip.rs:525-534 | a fast-forward taken by the driver never moves the engine to an earlier height or round |
| Voting.TimeoutStepsOn | crates/aii-consensus-bft/src/engine.rs:919-928 | a timeout never moves the engine to an earlier height or round |
| Voting.DispatchStep | crates/aii-consensus-bft/src/gossip.rs:381-458 | handling a message, whatever it is, keeps the vote discipline and releases nothing |
| Voting.AutoHarvestStep | crates/aii-consensus-bft/src/gossip.rs:130-134 | sweeping up a commit keeps the node ahead of its votes if and only if the block is not numbered below a height it has voted at |
| Voting.NodeStepKeepsInv | crates/aii-consensus-bft/src/gossip.rs:154-198 | an event keeps all released votes consistent and none ahead of the engine if and only if the block it harvests, if any, is not numbered below a height the node has voted at; no message needs to be kept from it |
| Voting.NeverSignsTwice | crates/aii-consensus-bft/src/gossip.rs:305-349 | over any run from a fresh start, with any messages at all, in which no harvest falls behind the node's own votes, it never releases two different PRE-VOTES, nor two different PRE-COMMITS, for one height and round |
| StaleProposal.StaleProposalsBreakAgreement | crates/aii-consensus-bft/src/engine.rs:758-768 | when stale blocks are harvested, a node releases two different PRE-VOTES and commits two different blocks, both with verifying certificates, at one height and round, although the faulty stake is below a third, every message is one the wire delivers and no two blocks involved share a hash |
| Network.PeerStepKeepsInv | crates/aii-consensus-bft/src/gossip.rs:154-198 | a step of a node whose harvest does not fall behind its votes keeps: it signed exactly what it released, each PRE-COMMIT rests on a verifying PRE-VOTE certificate it held, and each commit is certified |
| Network.NextKeepsInv | crates/aii-consensus-bft/src/gossip.rs:381-458 | every event of the network keeps the invariant of every node |
| Network.CertificatesAgree | crates/aii-consensus-bft/src/coordinator.rs:152-271 | with at most a third of the stake faulty, any two verifying certificates of one phase, height and round that exist in the network are for the same block |
| Network.NodesAgreeHolds | crates/aii-consensus-bft/src/coordinator.rs:235-255 | nodes that commit at the same height and round commit the same block |
| Network.FinalityIsLockedHolds | crates/aii-consensus-bft/src/engine.rs:729-754 | every existing commit certificate is backed by a lock a node held, and no PRE-VOTE certificate for another block exists at that height and round |
| Network.EvidenceIsSoundHolds | crates/aii-consensus-bft/src/slashing.rs:134-195 | evidence made of existing signatures that passes verification names a faulty validator |
| Network.SafetyOverRuns | crates/aii-consensus-bft/src/gossip.rs:154-198 | agreement, unique locks, single signing and sound evidence in every run, with any deliveries, with at most a third of the stake faulty and no harvest that falls behind a node's own votes |
| Network.GuardedIsEnabled | crates/aii-consensus-bft/src/gossip.rs:516-543 | with a collision-free header hash, delivering any proposal a node sent, to anyone and at any time, never makes a harvest fall behind; only a made-up proposal that is taken stale can |
| Network.SafetyOverGuardedRuns | crates/aii-consensus-bft/src/gossip.rs:154-198 | every run from fresh nodes in which receivers take no made-up stale proposal is safe, with no assumption on harvests |
| Kademlia.BucketIndex | crates/aii-net-p2p/src/kademlia.rs:75-85 | the loop returns the position of the first differing bit, and 255 for the local id |
| Kademlia.XorDistance | crates/aii-net-p2p/src/kademlia.rs:128-134 | the loop fills the bytewise exclusive or |
| Kademlia.LexIsNumeric | crates/aii-net-p2p/src/kademlia.rs:124-128 | comparing distances byte by byte compares them as 256-bit numbers |
| Kademlia.LaterBucketIsCloser | crates/aii-net-p2p/src/kademlia.rs:75-85 | everything in a later bucket is strictly closer to the local id |
| Kademlia.KademliaTable.Insert | crates/aii-net-p2p/src/kademlia.rs:92-109 | follows the insertion step: ignore self, refresh, evict the oldest when full, append |
| Kademlia.BucketHoldsMostRecent | crates/aii-net-p2p/src/kademlia.rs:86-109 | after any insertions a bucket holds exactly the 16 most recently seen ids that belong to it, in the order last seen |
| Kademlia.PayloadIsFromAdmission | crates/aii-net-p2p/src/kademlia.rs:98-108 | a stored payload is that of the insertion which last admitted its id to the bucket; refreshes in between do not replace it |
| Kademlia.TableOverRuns | crates/aii-net-p2p/src/kademlia.rs:92-109 | after any insertions every entry is in the bucket of its first differing bit, ids do not repeat and no bucket exceeds 16 |
| Kademlia.KademliaTable.FindClosest | crates/aii-net-p2p/src/kademlia.rs:115-122 | returns n entries, or all, nearest first, and everything left out is farther away |
| Kademlia.NearestIsUnique | crates/aii-net-p2p/src/kademlia.rs:115-122 | that description determines the result |
| Sync.SyncEngine.Handle | crates/aii-net-sync/src/lib.rs:105-197 | follows the state machine, errors included, which `EventsAreHandledRight` characterises |
| Sync.SyncEngine.AcceptHeaders | crates/aii-net-sync/src/lib.rs:122-156 | the contiguity loop and the collection of hashes follow the specification |
| Sync.EventsAreHandledRight | crates/aii-net-sync/src/lib.rs:105-197 | in every reachable state an event is accepted exactly if it is what the headers and bodies accepted so far call for, and it then leads to the right phase and returns the right action: the next headers, the next body, or the last block to persist |
| Sync.RejectedChangesNothing | crates/aii-net-sync/src/lib.rs:105-197 | a rejected event leaves the engine as it was |
| Sync.RejectionSaysWhy | crates/aii-net-sync/src/lib.rs:105-197 | which error a rejected event gets: the first header out of order with the number expected there, the hash of a body that is not next, or the phase the event does not fit |
| Sync.SyncRunIsCorrect | crates/aii-net-sync/src/lib.rs:105-197 | over every run, through any disconnects, accepted bodies are numbered consecutively from the starting height; when done, they are exactly the accepted headers in order and reach the announced target |
| Sync.AcceptedMakesProgress | crates/aii-net-sync/src/lib.rs:105-197 | every accepted event other than a disconnect decreases a lexicographic measure |
| Sync.AnswersAreAccepted | crates/aii-net-sync/src/lib.rs:105-197 | an answer from a chain to the outstanding request is always accepted, makes progress, and leaves the sync done or waiting on the action returned |
| Federation.NewFederation | crates/aii-crosschain/src/federation.rs:59-76 | accepts exactly the valid federations and otherwise returns the error of the first failed check |
| Federation.BuildId | crates/aii-crosschain/src/federation.rs:103-110 | the loop hashes the threshold followed by the keys in order |
| Federation.IdPreimageInjective | crates/aii-crosschain/src/federation.rs:103-110 | the hashed bytes determine the threshold and the keys in order |
| Federation.IdPreimageLayout | crates/aii-crosschain/src/federation.rs:103-110 | the hashed bytes are the threshold in 8 bytes and then the keys, key i at offset 8 + 48 i |
| Federation.ReceiptPreimageInjective | crates/aii-crosschain/src/federation.rs:143-152 | the signed bytes determine the federation id and every field of the receipt |
| Federation.ReceiptPreimageLayout | crates/aii-crosschain/src/federation.rs:143-152 | the signed bytes are federation id, chain id, asset, amount, recipient and nonce, each at its place and in big-endian |
| Federation.Vault.Release | crates/aii-crosschain/src/federation.rs:210-253 | the first failed check decides the error and nothing changes; a release records exactly its nonce |
| Federation.ReleasedIffAuthorised | crates/aii-crosschain/src/federation.rs:210-253 | the four checks together demand exactly a threshold of known signers, the sum of their signatures over this federation's digest, and a fresh nonce |
| Federation.RefusalSaysWhy | crates/aii-crosschain/src/federation.rs:210-253 | unknown signers are reported first, by the highest, then too few signers, by their number, then a used nonce, then a signature that is not theirs |
| Federation.SignersSigned | crates/aii-crosschain/src/federation.rs:243-249 | everyone the bitmap of an authorised bundle names signed the digest |
| Federation.VaultOverRuns | crates/aii-crosschain/src/federation.rs:210-253 | over any run the used nonces are those of the releases, no nonce is released twice, every release was authorised by at least threshold distinct signer indices, and an authorised bundle is refused only if its nonce was released before |
| Federation.ThresholdCountsKeysIff | crates/aii-crosschain/src/federation.rs:59-76 | every authorised bundle carries at least threshold different keys if and only if the keys of the federation are all different or the threshold is one |
| Federation.SharedKeyBundle | crates/aii-crosschain/src/federation.rs:59-76 | with a repeated key and a threshold above one, fewer key holders than the threshold can authorise any receipt |
| Federation.SignatureIsForOneRelease | crates/aii-crosschain/src/federation.rs:133-152 | one signature authorises one receipt at one federation only |
| Emission.RewardIsDivision | crates/aii-config/src/chain_spec.rs:98-108 | the subsidy at n is the initial one divided by two to the number of halvings, for every n; the cut-off at 128 never shows |
| Emission.RewardNeverIncreases | crates/aii-config/src/chain_spec.rs:98-108 | the subsidy never increases |
| Emission.SupplyIsBounded | crates/aii-config/src/chain_spec.rs:98-108 | however many blocks there are, at most 2 x interval x initial is issued |
| Emission.WithoutHalvingSupplyIsLinear | crates/aii-config/src/chain_spec.rs:98-108 | with an interval of zero or of 2^64 - 1, n blocks issue n times the initial subsidy |

## Left out

- Cross-round agreement: the lock is information only, no voting rule enforces it, and a fast-forward
  builds a coordinator without it, so the code does not promise agreement between different rounds.
- Unconditional liveness and timing: `Progress` assumes that the messages arrive; timeouts come from the host, and a
  lost block response is not requested again.
- Crash and restart: only height and round are persisted, by file I/O.
- Heights are natural numbers: wrap-around and saturation of 64-bit heights and timestamps are not modelled.
  Rounds saturate at 2^32 - 1, stakes saturate and the quorum threshold wraps at 2^64, as in the code.
- `Engine::init`, `advance_single` and `step`, the single-validator path of the engine.
- `from_recovered` and the transaction pool: the body of a proposal is a parameter.
- Executor roots, gas and the remaining header fields of a built block; parent hash, number, timestamp, mix hash,
  beneficiary, transactions root and body are kept.
- Rotation of the validator set inside the network runs: nodes there share one fixed set; `Chain` covers rotation.
- Mutexes: each operation of the engine and the driver runs under one lock in the source and is one step here.
- The driver caches and sends messages rather than their bytes; `Wire` shows that a message and its bytes
  determine each other.  Inboxes are byte strings, as in the source.
- The internals of BLS, VRF and Keccak, and the RLP codecs of blocks and bodies.
- The library sort inside `find_closest` is replaced by insertion in order of distance; the result is unique.
- The command line, RPC, metrics, noise and TCP/UDP transports, the EVM wrapper, HTLC, proof of
  authority, the developer engine, microchains and token code: plumbing, or claims that a branch or two settles.
- Coordinator.RunAdvances: that a new lock is from a strictly later round is stated below round 2^32 - 1 only, since
  a timeout restarts the last round and its lock can then be replaced by one of the same round.
- Sync.SyncRunIsCorrect: parent links between headers are not claimed, because the engine checks numbers only.

Where the code and its comments disagree, the model follows the code:

- a full Kademlia bucket always evicts its oldest entry, live or not;
- the equivocation detector reports votes that were recorded, signed or not;
- the sync engine asks to persist only the last block and leaves the others to its caller;
- a lock formed in the last representable round can replace one of the same round.
