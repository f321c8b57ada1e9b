# Catalyst node: verified model of consensus, finality and recovery

A Dafny 4.11 model of the Catalyst node (crates `catalyst-consensus`, `catalyst-core` and
`catalyst-cli`), with proofs of what its consensus, certificates, ledger content, recovery and
supporting state machines guarantee. `dafny verify dfyconfig.toml` checks everything.

**The four-phase protocol.** A producer of a cycle builds a partial update from its batch
(`Construction`), counts agreeing quantities, candidates and votes (`Majority`, `Phases`), and
returns a ledger update; `PhaseLaws` says what each phase's message and each error mean. `Engine` holds the phase objects, the producer manager and the engine as
classes that update their records in place, each method proved equal to a function of `Phases`,
`Steps`, `Collectors` or `Observer`. `Protocol` is the network: a state machine over start,
campaign, vote, synchronize, give-up, observe and inject actions, where any subset of the sent
messages is delivered, late, duplicated and reordered, and ids in a set `faulty` (members or
outsiders) may send anything in their own name. `Safety` and `Preservation` give the invariant of
every reachable state, `Agreement` the safety theorems over all runs, `Progress` and `Exactness`
the runs that show the agreement bound is exact and the protocol is not stuck, `Observation` the
same of observers, and `Refinement` ties the engine's method to the network's steps.

**Certificates and fork choice.** `Certificates`, `Finality` and `StateRoot` model the two
certificates and their verification loops, `ForkChoice` the choice among competing updates and
the slot in which a node keeps the chosen one.

**Ledger content.** `Merkle`, `Witness`, `Construction`, `Rewards` and `FeeFlow`; `Codec`,
`Ledger` and `Wire` are the byte formats that are hashed, signed and sent.

**Recovery and retention.** `Store`, `Checkpoint`, `Recovery` and `Pruning`.

**Supporting parts.** `Network` and `Collectors` (pending queue, phase collectors), `Selection`,
`Validity` (a transaction's own checks), `Mempool`, `Clock`; `Binary`, `Utf8` and `Sorting`
underneath.

## Conventions and hypotheses

- The digest is a parameter, any function from byte strings to 32 bytes. Where a theorem needs
  hashes to be ideal it says so as "no collision among these strings", since a digest without any
  collision does not exist. Signature checking is a parameter in the same way.
- Identifiers are the UTF-8 bytes of the node's strings; Rust orders them as byte strings do.
  Where a theorem does not need them to be well-formed it is about all byte strings.
- A faulty id sends anything, but only in its own name. The collectors do not check the
  `producer_id` of a message against its sender (crates/catalyst-consensus/src/consensus.rs:616-623),
  so an id that can speak for others counts as all of them.
- Clock readings and what a channel yields before a deadline are parameters. A phase timeout is
  the give-up action.
- A member runs a cycle at most once, and all nodes share the committee and the reward settings.
- `usize` is 64 bits wide; u64 and i64 arithmetic is written out, saturating where the code is.

## Findings

Laws that hold only under a condition are stated with the exact condition, and each with an input
or a run for which they fail:

- Agreement needs no hypothesis on who is heard when nobody is faulty. With faulty ids, and two
  batches that lead to different hashes, it holds for all runs exactly when at most one member is
  honest or members, outsiders and equivocators together stay below two quorums
  (`Exactness.AgreementExactly`). The collectors count any sender, so outsiders weigh in this bound.
- Observers wait for a majority of the committee list, so their bounds differ: what they take was
  returned by a producer exactly while the faulty ids are fewer than that majority
  (`Observation.BackedExactly`), and they agree with each other and with producers exactly under
  the bounds of `Observation.ObserversAgreeExactly` and `Observation.MatchesProducersExactly`.
- The producer-list witness tells id sets apart except when the leaves of one list are a level of
  inner nodes of the other's tree (`Witness.WitnessExactUnlessGrafted`): leaves and nodes are
  hashed without a domain separator. It takes an id of 64 bytes (`Witness.ShortIdsAreCommitted`),
  and UTF-8 ids can do it (`Witness.TextIdsCanGraft`).
- Construction ignores the order of the batch exactly when no two entries agree in key, amount,
  signature length and signature digest but not in the signature (`Construction.ConstructionDependsOnBatch`).
- The producers' share never exceeds what was earned exactly when the producers' rate is at most
  100% and so is its product with the fee rate (`Rewards.OverpaysExactly`).
- A node keeps one hash per cycle and looks its evidence up at each comparison; an update it
  applies is written without one. Every order of announcements, applied updates and evidence ends
  on one hash exactly when that hash is named, cannot be displaced and always overtakes
  (`ForkChoice.ConvergenceExactly`), so two different applied updates never converge
  (`ForkChoice.AppliedDecides`). Evidence found for a stored hash protects it
  (`ForkChoice.CertifiedHeadStays`); evidence found after the hash was displaced does not bring it
  back until it is announced again (`ForkChoice.LateEvidenceDiverges`).
- The checkpoint lookup misses checkpoints older than its scan window (`Checkpoint.LookupExactly`,
  `Checkpoint.LookupMissesOldCheckpoint`), and a pruned boundary past the checkpoint can hide a gap
  (`Recovery.ReplayExactly`, `Recovery.GapBelowPrunedBoundary`).
- A replay after pruning is complete exactly when pruning is off or the checkpoint or the marker
  has reached the pruning limit or the target (`Pruning.ReplayAfterPruningExactly`); otherwise one run makes a gap
  that reconcile does not see (`Pruning.RunHidesGap`). A restore rewinds the marker, so the same
  range is cut again (`Pruning.RestoreRewindsRanges`).
- The snapshot of a checkpoint is taken before its record is written, so a restore takes every
  lookup back to what it answered then: it can return the restored checkpoint again exactly when
  the record was there before the write (`Recovery.RestoreForgetsExactly`,
  `Recovery.FirstCheckpointIsForgotten`).
- Construction finds the declared fees, clamped at u64, exactly when each transaction with a fee
  has a sender and a fee that fits i64, or the charged fees alone fill u64
  (`FeeFlow.FeesRecoveredExactly`). A transfer that debits two keys is valid and pays nothing
  (`FeeFlow.TwoDebitsPayNothing`).
- A drain that is cut inside a transaction changes the fees construction finds, exactly when the
  entries it took of that transaction do not cancel out (`Mempool.DrainedFees`,
  `Mempool.CutDrainMisjudges`).
- A committee is the set of nearest workers only if the pool lists each worker once
  (`Selection.CommitteeIsNearest`, `Selection.RepeatedWorkerTakesTwoSeats`).

## Model

| member | source | states |
|---|---|---|
| `Exactness.AgreementExactly` | crates/catalyst-consensus/src/phases.rs:508-651 | given two batches that lead to different update hashes: in every run all updates returned in a cycle have one hash, if and only if at most one member is honest or twice the quorum exceeds possible voters plus equivocators |
| `Agreement.AgreementOverAllRuns` | crates/catalyst-consensus/src/consensus.rs:181-270 | two producers that finish a cycle in any run return updates with one hash, and the identical update unless two serializations collide |
| `Agreement.HonestAlwaysIntersect` | crates/catalyst-consensus/src/producer.rs:124-126 | with no faulty ids, thresholds of floor(n/2)+1 always intersect |
| `Agreement.VotesAgree` | crates/catalyst-consensus/src/phases.rs:974-1033 | two hashes that each have a quorum of votes in one cycle are equal |
| `Agreement.UpdateFixedAtStart` | crates/catalyst-consensus/src/phases.rs:580-630 | a returned update is the function of cycle, own batch, canonical committee and rewards fixed by the producer's start, whatever it heard |
| `Agreement.ReturnedUpdatePays` | crates/catalyst-consensus/src/phases.rs:595-725 | every update returned in any run is of its cycle, lists exactly the committee twice, and pays each member in id order, under its own key, shares within one unit of each other that sum to the pool of the update's own fees |
| `PhaseLaws.BuiltUpdatePays` | crates/catalyst-consensus/src/phases.rs:595-725 | the same of the update built on any partial update for any non-empty sorted list |
| `PhaseLaws.CountExplained` | crates/catalyst-consensus/src/phases.rs:249-319 | too few means fewer reports than required, split means enough reports and no digest with enough supporters, agreed means enough supporters and the most |
| `PhaseLaws.ConstructionSays` | crates/catalyst-consensus/src/phases.rs:42-111 | the first message carries the hash of a partial update that holds the whole batch, and nothing else of the record changes |
| `PhaseLaws.CampaignSays` | crates/catalyst-consensus/src/phases.rs:249-349 | a candidate names the most supported digest and the witness of exactly its supporters, itself included if it built the same; an error explains the count and changes nothing |
| `PhaseLaws.VotingSays` | crates/catalyst-consensus/src/phases.rs:508-651 | a vote is for the own partial update, with the witness of the committee or the agreeing producers; each error says what was missing and changes nothing |
| `PhaseLaws.SynchronizationSays` | crates/catalyst-consensus/src/phases.rs:974-1086 | an output means the own update's hash has the required votes; each error says what was missing |
| `PhaseLaws.OutputNames` | crates/catalyst-consensus/src/phases.rs:1034-1086 | its address is scheme 1 and 20 bytes of that hash, its witness is of the committee or the voters |
| `PhaseLaws.ResetForgets` | crates/catalyst-consensus/src/producer.rs:54-66 | a reset depends on nothing but id, key, cycle and committee |
| `PhaseLaws.ThresholdIsMajority` | crates/catalyst-consensus/src/producer.rs:124-126 | the threshold is the least strict majority of the distinct members |
| `PhaseLaws.LoneProducerFinishes` | crates/catalyst-consensus/src/consensus.rs:181-270 | a committee of one that hears nobody else finishes with the update of its batch, whatever is said in its name |
| `Agreement.MajorityBuiltTheBatch` | crates/catalyst-consensus/src/phases.rs:249-349 | an update is returned only if all but the faulty of a committee majority built its very batch hash |
| `Observation.BackedExactly` | crates/catalyst-consensus/src/consensus.rs:463-543 | in every run what an observer takes was returned by a producer of that cycle, up to the 20-byte hash prefix, if and only if the faulty ids are fewer than a majority of the committee list |
| `Observation.ObserverAgrees` | crates/catalyst-consensus/src/consensus.rs:463-543 | the sufficient half, for one run and one observed update |
| `Observation.MadeUp` | crates/catalyst-consensus/src/consensus.rs:463-543 | otherwise there is a run in which an observer takes an update and no producer returned any |
| `Observation.MatchesProducersExactly` | crates/catalyst-consensus/src/consensus.rs:463-543 | given two batches with different hash prefixes: in every run an observer's update has the prefix of every returned one, if and only if there are too few honest members for a producer's and an observer's side apart |
| `Observation.ObserverMatchesProducers` | crates/catalyst-consensus/src/consensus.rs:463-543 | the sufficient half, for one run, one observed and one returned update |
| `Observation.ObserverParts` | crates/catalyst-consensus/src/consensus.rs:463-543 | otherwise there is a run in which a producer and an observer hold the updates of two different batches |
| `Observation.ObserversAgreeExactly` | crates/catalyst-consensus/src/consensus.rs:463-543 | given two batches with different hash prefixes: in every run two observers' updates have one prefix, if and only if twice the outputs they wait for exceeds possible voters plus equivocators |
| `Observation.ObserversAgree` | crates/catalyst-consensus/src/consensus.rs:463-543 | the sufficient half, for one run and two observed updates |
| `Observation.ObserversPart` | crates/catalyst-consensus/src/consensus.rs:463-543 | otherwise there is a run in which two observers take the updates of two different batches |
| `Observation.IntersectingSuffices` | crates/catalyst-consensus/src/consensus.rs:463-543 | the producers' bound implies all three |
| `Observation.SamePrefixSameUpdate` | crates/catalyst-consensus/src/consensus.rs:463-543 | without a collision of 20-byte prefixes the updates themselves are equal |
| `Preservation.RunKeeps` | crates/catalyst-consensus/src/consensus.rs:104-149 | every run keeps the invariant: honest reports follow from the sender's own batch and rest on a quorum of the round before, results rest on a vote quorum, outputs follow results |
| `Preservation.StepKeeps` | crates/catalyst-consensus/src/consensus.rs:181-270 | each action of the network keeps that invariant |
| `Preservation.CampaignYields` | crates/catalyst-consensus/src/phases.rs:249-349 | a candidate names a hash that at least the required number of collected producers reported, and only the producer list changes |
| `Preservation.VoteYields` | crates/catalyst-consensus/src/phases.rs:508-651 | with a committee, the voted update depends on the record alone, and the own first hash has the required candidates |
| `Preservation.SynchronizeYields` | crates/catalyst-consensus/src/phases.rs:974-1086 | an output carries the address of the own update, whose hash has the required votes |
| `Preservation.ObservedYields` | crates/catalyst-consensus/src/consensus.rs:463-543 | an observed update's address has the required producers |
| `Preservation.ResetThreshold` | crates/catalyst-consensus/src/producer.rs:54-66 | after a reset the threshold is a strict majority of the distinct committee members |
| `Progress.CampaignSucceeds` | crates/catalyst-consensus/src/phases.rs:249-349 | a producer that hears a quorum for its first hash nominates it |
| `Progress.VoteSucceeds` | crates/catalyst-consensus/src/phases.rs:508-651 | a producer that hears a quorum of candidates for its first hash votes |
| `Progress.SynchronizeSucceeds` | crates/catalyst-consensus/src/phases.rs:974-1086 | a producer that hears a quorum of votes for its update finishes |
| `Exactness.SideFinishes` | crates/catalyst-consensus/src/consensus.rs:181-270 | from any reachable state, honest members sharing a batch can all finish once they and the faulty ids make a quorum |
| `Exactness.EveryoneCanFinish` | crates/catalyst-consensus/src/consensus.rs:181-270 | a committee without faults has a run in which every member returns the update of the batch |
| `Exactness.DisagreementRun` | crates/catalyst-consensus/src/consensus.rs:616-623 | beyond the bound there is a run in which two honest members return the updates of two different batches |
| `Refinement.EngineRunIsNetworkRun` | crates/catalyst-consensus/src/consensus.rs:181-270 | a producer's four actions, interleaved with anyone else's, add a result exactly when the engine run on the same envelopes returns that update |
| `Engine.Engine.RunFourPhaseConsensus` | crates/catalyst-consensus/src/consensus.rs:181-270 | returns what the cycle function yields on the envelopes buffered and received in each window, errors included |
| `Steps.WindowsMissNothing` | crates/catalyst-consensus/src/consensus.rs:55-86 | within ten thousand envelopes each phase reads every message of its kind that arrived before its deadline, however early |
| `Engine.Engine.CampaignStep` | crates/catalyst-consensus/src/consensus.rs:210-229 | collects quantities, adds its own last and campaigns on one per producer; other kinds stay buffered |
| `Engine.Engine.VoteStep` | crates/catalyst-consensus/src/consensus.rs:226-246 | collects candidates, adds its own last and votes |
| `Engine.Engine.SynchronizeStep` | crates/catalyst-consensus/src/consensus.rs:243-265 | collects votes, adds its own last and synchronizes |
| `Engine.Engine.ObserveConsensus` | crates/catalyst-consensus/src/consensus.rs:463-543 | returns the observer's verdict on the outputs and broadcasts of the engine's current cycle, and what it leaves buffered |
| `Engine.Engine.StartCycle` | crates/catalyst-consensus/src/consensus.rs:104-149 | a selected producer resets its record and runs the cycle; a node that is not selected or has no producer observes and leaves its record alone |
| `Engine.ConstructionPhase.Execute` | crates/catalyst-consensus/src/phases.rs:42-111 | sorts the batch, computes signature root and fees, records partial update and first hash |
| `Engine.CampaigningPhase.AddQuantity` | crates/catalyst-consensus/src/phases.rs:220-223 | the last quantity of a producer is kept |
| `Engine.CampaigningPhase.Execute` | crates/catalyst-consensus/src/phases.rs:249-349 | the outcome and the new record are those of the campaigning function, for every error and tie |
| `Engine.VotingPhase.AddCandidate` | crates/catalyst-consensus/src/phases.rs:479-482 | the last candidate of a producer is kept |
| `Engine.VotingPhase.Execute` | crates/catalyst-consensus/src/phases.rs:508-651 | the outcome and the new record are those of the voting function |
| `Engine.VotingPhase.FinalProducerList` | crates/catalyst-consensus/src/phases.rs:595-609 | the sorted distinct committee, or whoever agreed and itself when none was given |
| `Engine.VotingPhase.FinalLedgerUpdate` | crates/catalyst-consensus/src/phases.rs:611-630 | the update built from partial update, compensation and list |
| `Engine.SynchronizationPhase.AddVote` | crates/catalyst-consensus/src/phases.rs:945-948 | the last vote of a producer is kept |
| `Engine.SynchronizationPhase.Execute` | crates/catalyst-consensus/src/phases.rs:974-1114 | the output or error of the synchronization function |
| `Engine.ProducerManager.ResetForCycle` | crates/catalyst-consensus/src/producer.rs:54-66 | every per-cycle field is cleared and the committee becomes the sorted distinct one |
| `Engine.ProducerManager.ExecuteConstruction` | crates/catalyst-consensus/src/producer.rs:91-110 | runs the phase on a copy and writes back partial update and first hash |
| `Engine.ProducerManager.ExecuteCampaigning` | crates/catalyst-consensus/src/producer.rs:112-133 | adds the quantities in turn, campaigns with a strict majority, writes back the producer list only on success |
| `Engine.ProducerManager.ExecuteVoting` | crates/catalyst-consensus/src/producer.rs:136-158 | adds the candidates in turn, votes, writes back update and vote list only on success |
| `Engine.ProducerManager.ExecuteSynchronization` | crates/catalyst-consensus/src/producer.rs:161-178 | adds the votes in turn and synchronizes without changing the record |
| `Majority.GroupByDigest` | crates/catalyst-consensus/src/phases.rs:263-273 | each reported digest is listed with exactly its sorted distinct reporters |
| `Majority.FindPlurality` | crates/catalyst-consensus/src/phases.rs:275-292 | the loop finds the digest with most reporters, the smallest among equals, whatever the iteration order |
| `Majority.TieGoesToSmaller` | crates/catalyst-consensus/src/phases.rs:275-292 | of digests with equally many reporters the smaller wins |
| `Majority.CountReports` | crates/catalyst-consensus/src/phases.rs:249-319 | too few reports, no majority with its highest count, or the agreed digest with its sorted reporters |
| `Majority.CountIsQuorum` | crates/catalyst-consensus/src/phases.rs:276-319 | when the threshold is a majority of what was heard, a digest is agreed if and only if that many reported it, so ties never decide |
| `Observer.FindQuorate` | crates/catalyst-consensus/src/consensus.rs:487-508 | the smallest address that enough producers named, or none |
| `Observer.SmallerAddressTaken` | crates/catalyst-consensus/src/consensus.rs:487-508 | of two addresses with enough producers the smaller is taken |
| `Observer.Decide` | crates/catalyst-consensus/src/consensus.rs:463-543 | the first broadcast matching the agreed address of scheme 1, or nothing |
| `Observer.RequiredIsMajority` | crates/catalyst-consensus/src/consensus.rs:466-470 | one output without a committee, else the least strict majority of the list |
| `Observer.FirstMatchIsFirst` | crates/catalyst-consensus/src/consensus.rs:509-543 | the update taken is that of the first broadcast with the prefix |
| `Observer.NoMatchIsNone` | crates/catalyst-consensus/src/consensus.rs:509-543 | and none if no broadcast has it |
| `Network.PendingEnvelopes.Push` | crates/catalyst-consensus/src/consensus.rs:59-65 | appends, dropping the oldest when 10000 are queued |
| `Network.PendingEnvelopes.DrainByKind` | crates/catalyst-consensus/src/consensus.rs:67-86 | removes and returns the envelopes of one type, both parts in arrival order |
| `Network.RunQueue` | crates/catalyst-consensus/src/consensus.rs:55-86 | over every interleaving: length within bound, arrival order kept, each envelope in exactly one of queue, one drain or evictions, and only the oldest evicted |
| `Network.QueueRunIsQueue` | crates/catalyst-consensus/src/consensus.rs:55-86 | that run is step by step what the queue holds and what each drain returns |
| `Collectors.Collect` | crates/catalyst-consensus/src/consensus.rs:561-655 | buffered envelopes first, then live ones; the last readable message of this cycle per producer; other types buffered; without a receiver nothing is read and the buffer stays |
| `Collectors.CollectForObserver` | crates/catalyst-consensus/src/consensus.rs:388-453 | outputs per producer and all update broadcasts of this cycle; everything else stays buffered in order; nothing without a receiver |
| `Collectors.DedupByProducer` | crates/catalyst-consensus/src/consensus.rs:935-957 | one message per producer, the last, in id order |
| `Collectors.CollectedSound` | crates/catalyst-consensus/src/consensus.rs:616-623 | what is collected is of this cycle, in the producer's name, and was in some envelope |
| `Collectors.CollectedComplete` | crates/catalyst-consensus/src/consensus.rs:616-623 | every producer heard in this cycle is collected |
| `Collectors.CollectedIsLast` | crates/catalyst-consensus/src/consensus.rs:616-623 | the message kept is the last one of its producer |
| `Collectors.WindowHearsAll` | crates/catalyst-consensus/src/consensus.rs:576-623 | a collector reads the buffered and the live messages as one list in order of arrival |
| `Collectors.BufferedAreCollected` | crates/catalyst-consensus/src/consensus.rs:576-588 | a message buffered before the phase is collected, and the last of its producer is kept |
| `Collectors.SecondWindowHearsAll` | crates/catalyst-consensus/src/consensus.rs:404-412 | the same of the broadcasts an observer reads |
| `Collectors.PushAllKeepsNewest` | crates/catalyst-consensus/src/consensus.rs:59-65 | of all that is buffered the newest ten thousand stay |
| `Collectors.LeftForOthers` | crates/catalyst-consensus/src/consensus.rs:561-655 | a collector leaves for the other kinds all they have to read, within that bound |
| `Collectors.LeftByObserver` | crates/catalyst-consensus/src/consensus.rs:388-453 | so does the observer |
| `Merkle.ComputeMerkleRoot` | crates/catalyst-consensus/src/phases.rs:123-152 | the level loop computes the root of the odd-duplicating tree, zero for no leaves |
| `Merkle.EqualRootsMeet` | crates/catalyst-consensus/src/phases.rs:123-152 | equal roots mean that one level of leaves appears unchanged at some height of the other tree |
| `Merkle.RootOfThree` | crates/catalyst-consensus/src/phases.rs:123-152 | zero, the leaf, one node, and an odd third leaf paired with itself |
| `Merkle.SameSizeRoots` | crates/catalyst-consensus/src/phases.rs:123-152 | between lists of one length equal roots mean equal leaves |
| `Witness.HashProducerList` | crates/catalyst-consensus/src/phases.rs:380-386 | the witness is the root over the sorted distinct ids |
| `Witness.WitnessIgnoresOrderAndRepetition` | crates/catalyst-consensus/src/phases.rs:380-386 | lists with the same ids have one witness |
| `Witness.WitnessExactUnlessGrafted` | crates/catalyst-consensus/src/phases.rs:369-386 | without collisions, witnesses are equal if and only if the id sets are, or one list's leaves are a level of the other's tree |
| `Witness.GraftNeedsNodeInput` | crates/catalyst-consensus/src/phases.rs:369-386 | that exception needs an id that is byte for byte the input of a node |
| `Witness.WitnessCommitsToSet` | crates/catalyst-consensus/src/phases.rs:369-386 | if no id is such an input, equal witnesses mean equal id sets |
| `Witness.ShortIdsAreCommitted` | crates/catalyst-consensus/src/phases.rs:369-386 | if no id is 64 bytes long, witnesses are equal if and only if the id sets are |
| `Witness.TwoListsOneWitness` | crates/catalyst-consensus/src/phases.rs:123-152 | any two ids have the witness of one 64-byte string, for ids that are arbitrary byte strings |
| `Witness.TextIdsCanGraft` | crates/catalyst-consensus/src/phases.rs:369-386 | a digest free of collisions and zeros and two lists of UTF-8 ids, different as sets, with one witness |
| `Construction.EntryOrderTotal` | crates/catalyst-consensus/src/phases.rs:42-60 | the entry comparison is a total preorder |
| `Construction.ConstructionDependsOnBatch` | crates/catalyst-consensus/src/phases.rs:42-111 | every order of a batch builds the same partial update if and only if no two different entries compare equal |
| `Construction.TiedEntriesExposeOrder` | crates/catalyst-consensus/src/phases.rs:42-60 | two entries that compare equal and differ give two orders with different results |
| `Construction.FeesDependOnBatch` | crates/catalyst-consensus/src/phases.rs:69-80 | the fee total does not depend on the order |
| `Construction.PartialHoldsBatch` | crates/catalyst-consensus/src/phases.rs:42-60 | the partial update holds the whole batch in ascending order of signature digest, key, amount and signature length |
| `Construction.RootOfSignatures` | crates/catalyst-consensus/src/phases.rs:62-68 | its signature root is over the signature digests, one leaf per entry in order |
| `Construction.SignaturesCommitted` | crates/catalyst-consensus/src/phases.rs:62-68 | batches of one size with one signature root carry the same signature digests |
| `Rewards.CreateCompensationEntries` | crates/catalyst-consensus/src/phases.rs:679-725 | the loop pays the declared split, sorted by id, with remainder units to the first ids |
| `Rewards.RewardsConserved` | crates/catalyst-consensus/src/phases.rs:679-725 | amounts sum exactly to the pool, differ by at most one, and no addition saturates, for all u64 inputs |
| `Rewards.PoolExactly` | crates/catalyst-consensus/src/phases.rs:685-700 | short of saturation the pool is the producers' rate of block reward plus the fee rate of the fees, each rounded down |
| `Rewards.OverpaysExactly` | crates/catalyst-consensus/src/phases.rs:679-700 | the pool is within block reward plus fees for all rewards and fees, if and only if the producers' rate is at most 100% and so is its product with the fee rate |
| `Rewards.DoubledFeesCanOverpay` | crates/catalyst-consensus/src/phases.rs:679-700 | a 200% fee rate pays out two units for a fee of one at a producers' rate of 100%, and never too much at 50% |
| `Rewards.CompensationIgnoresOrder` | crates/catalyst-consensus/src/phases.rs:700-725 | the order of the producer list does not matter |
| `Codec.ReadsVec` | crates/catalyst-utils/src/serialization.rs:118-158 | a serialized list reads back within the reader's limit, leaving what follows |
| `Codec.TooManyItems` | crates/catalyst-utils/src/serialization.rs:118-158 | a longer list is refused |
| `Codec.ReaderLimits` | crates/catalyst-utils/src/serialization.rs:106-158 | the reader takes a million items and a hundred million bytes of text, and no more |
| `Codec.ReadsBytes` | crates/catalyst-utils/src/serialization.rs:118-158 | a serialized byte vector reads back within the item limit |
| `Codec.ReadsText` | crates/catalyst-utils/src/serialization.rs:106-116 | a serialized string reads back if and only if it is within the limit and, where the reader checks, well-formed UTF-8 |
| `Utf8.WellFormedExactly` | crates/catalyst-utils/src/serialization.rs:106-116 | the strings accepted as text are exactly the encodings of sequences of characters |
| `Codec.ReadsU64` | crates/catalyst-utils/src/serialization.rs:219-250 | a serialized u64 reads back |
| `Binary.U64Weights` | crates/catalyst-utils/src/serialization.rs:219-250 | the least significant byte comes first |
| `Binary.LessExactly` | crates/catalyst-consensus/src/phases.rs:380-386 | ids and digests are compared in dictionary order of their bytes |
| `Ledger.ReadsUpdate` | crates/catalyst-consensus/src/types.rs:78-87 | a serialized ledger update reads back, whatever follows |
| `Ledger.UpdateBytesInjective` | crates/catalyst-consensus/src/types.rs:251-262 | different updates whose lengths fit u32 are hashed from different bytes |
| `Ledger.PartialBytesInjective` | crates/catalyst-consensus/src/types.rs:57-65 | the same for partial updates |
| `Ledger.UpdateLayout` | crates/catalyst-consensus/src/types.rs:45-87 | the order of the fields in the hashed bytes, on one entry, payment and id each |
| `Wire.WireV2RoundTrip` | crates/catalyst-core/src/protocol.rs:359-380 | a v2 encoding of at most 64 KiB decodes to the same transaction, a longer one is too large |
| `Wire.WireV1RoundTrip` | crates/catalyst-core/src/protocol.rs:345-391 | a v1 encoding of at most 64 KiB decodes to the transaction with scheme 0 and no key, a longer one is too large |
| `Wire.TrailingBytesIgnored` | crates/catalyst-core/src/protocol.rs:367-380 | bytes after a v2 encoding do not change what is decoded |
| `Wire.DispatchExactly` | crates/catalyst-core/src/protocol.rs:367-391 | which decoder answers and which error it gives, by the first four bytes and within 64 KiB |
| `Wire.TransactionLayout` | crates/catalyst-core/src/protocol.rs:345-365 | the order of the fields in both encodings, on a transaction with one entry |
| `Wire.SigningLayout` | crates/catalyst-core/src/protocol.rs:65-113 | domain, chain id and genesis come first, then scheme and key for v2, then the transaction |
| `Wire.SigningV2Injective` | crates/catalyst-core/src/protocol.rs:92-113 | equal v2 payloads mean equal fields |
| `Wire.SigningV1Injective` | crates/catalyst-core/src/protocol.rs:65-82 | equal v1 payloads mean equal fields |
| `Wire.SigningVersionsDisjoint` | crates/catalyst-core/src/protocol.rs:65-113 | no payload is of both versions |
| `Certificates.OneKeyPerSpelling` | crates/catalyst-consensus/src/lsu_finality.rs:63-74 | two ids parse to one key if and only if they differ in letter case only |
| `Certificates.HexRoundTrip` | crates/catalyst-consensus/src/lsu_finality.rs:63-74 | digits written for bytes read back as those bytes |
| `Certificates.KeysAreDigits` | crates/catalyst-consensus/src/lsu_finality.rs:63-74 | an id is a key if and only if it is 64 hexadecimal digits |
| `Certificates.CommitteeHashExactly` | crates/catalyst-consensus/src/lsu_finality.rs:77-86 | the committee digest is over the 32-byte keys at their members' places, none for an empty list |
| `Certificates.KeysReadable` | crates/catalyst-consensus/src/lsu_finality.rs:77-86 | there are keys to hash if and only if every id is one |
| `Certificates.HashCommittee` | crates/catalyst-consensus/src/lsu_finality.rs:77-86 | the digest of the keys in list order; none for an empty list or an unreadable id |
| `Certificates.KeysTellApart` | crates/catalyst-consensus/src/lsu_finality.rs:77-86 | the hashed string determines the number and order of keys |
| `Certificates.Threshold` | crates/catalyst-consensus/src/lsu_finality.rs:109-115 | the least count that is at least two thirds of n, and unreachable for none |
| `Certificates.CheckBallots` | crates/catalyst-consensus/src/lsu_finality.rs:198-226 | all ballots valid, or the first ballot with a fault and its first failing check |
| `Certificates.FaultMeans` | crates/catalyst-consensus/src/lsu_finality.rs:200-226 | each fault means that the ballot passed the checks before and fails this one |
| `Certificates.NoFaults` | crates/catalyst-consensus/src/lsu_finality.rs:200-226 | no ballot has a fault if and only if voters are distinct members of both lists and all signatures hold |
| `Certificates.AllValidExactly` | crates/catalyst-consensus/src/lsu_finality.rs:198-226 | ballots are valid if and only if there are as many voters as ballots and each is of both lists, with a valid key and 64 bytes that verify |
| `Certificates.TwoThirdsOverlap` | crates/catalyst-consensus/src/lsu_finality.rs:109-115 | two quorums of one committee have at least a third of it signing both digests |
| `Finality.LayoutInjective` | crates/catalyst-consensus/src/lsu_finality.rs:88-106 | the signed layout determines every field |
| `Finality.LayoutPositions` | crates/catalyst-consensus/src/lsu_finality.rs:88-106 | where each field lies in the 161 signed bytes |
| `Finality.PreimageInjective` | crates/catalyst-consensus/src/lsu_finality.rs:88-106 | the signed bytes determine chain, genesis, cycle, update, committee and vote list of the certificate |
| `Finality.ChainsSeparate` | crates/catalyst-consensus/src/lsu_finality.rs:88-106 | certificates of different chains have different digests |
| `Finality.FromLsuAndVotes` | crates/catalyst-consensus/src/lsu_finality.rs:138-159 | a certificate bound to the update, or none when the committee cannot be hashed |
| `Finality.Verify` | crates/catalyst-consensus/src/lsu_finality.rs:162-231 | accepts if and only if format and bindings match, voters are distinct members of both lists, all signatures hold and they reach two thirds; an error is that of the first check that fails |
| `Finality.CheckBinding` | crates/catalyst-consensus/src/lsu_finality.rs:166-184 | passes if and only if the certificate is bound to the update and has at most 256 votes, else names the first mismatch |
| `Finality.CommitteeCap` | crates/catalyst-consensus/src/lsu_finality.rs:169-171 | nothing verifies for more than 384 producers |
| `Finality.CertifiesExactly` | crates/catalyst-consensus/src/lsu_finality.rs:162-231 | what a verified certificate means, with its numbers: version and style 1, at most 256 ballots, at least two thirds of the committee |
| `Finality.BindingFixed` | crates/catalyst-consensus/src/lsu_finality.rs:166-184 | two certificates that verify for one update differ in chain and ballots at most |
| `Finality.CertifiesOneUpdate` | crates/catalyst-consensus/src/lsu_finality.rs:172-175 | a certificate verifies for one update only |
| `Finality.ConflictNeedsDoubleSigners` | crates/catalyst-consensus/src/lsu_finality.rs:162-231 | conflicting certificates over one committee have at least a third of it signing two different digests |
| `Finality.NoConflict` | crates/catalyst-consensus/src/lsu_finality.rs:162-231 | with fewer than a third double-signing, certified updates of one committee are equal |
| `StateRoot.DomainsSeparate` | crates/catalyst-consensus/src/state_root_finality.rs:57-96 | no string is hashed for both kinds of certificate |
| `StateRoot.PreimageInjective` | crates/catalyst-consensus/src/state_root_finality.rs:57-96 | the signed bytes determine chain, genesis, cycle, update, committee and root of the certificate |
| `StateRoot.ChainsSeparate` | crates/catalyst-consensus/src/state_root_finality.rs:57-96 | certificates of different chains or roots have different digests |
| `StateRoot.FromLsuAndAttestations` | crates/catalyst-consensus/src/state_root_finality.rs:118-138 | a certificate bound to the update and root, or none when the committee cannot be hashed |
| `StateRoot.Verify` | crates/catalyst-consensus/src/state_root_finality.rs:145-207 | accepts if and only if bound, attesters are distinct members, signatures hold and they reach two thirds; an error is that of the first check that fails |
| `StateRoot.CheckBinding` | crates/catalyst-consensus/src/state_root_finality.rs:149-163 | passes if and only if the certificate is bound to the update and has at most 256 attestations, else names the first mismatch |
| `StateRoot.CommitteeCap` | crates/catalyst-consensus/src/state_root_finality.rs:152-154 | nothing verifies for more than 384 producers |
| `StateRoot.CertifiesExactly` | crates/catalyst-consensus/src/state_root_finality.rs:145-207 | what a verified certificate means, with its numbers |
| `StateRoot.ConflictNeedsDoubleSigners` | crates/catalyst-consensus/src/state_root_finality.rs:145-207 | two certified roots of one update have at least a third of its committee attesting to both |
| `ForkChoice.HasVoteQuorum` | crates/catalyst-cli/src/fork_choice.rs:79-93 | true if and only if the vote list lies in a non-empty producer list and its distinct ids reach two thirds |
| `ForkChoice.VoteQuorumExactly` | crates/catalyst-cli/src/fork_choice.rs:79-93 | only producers voted and two thirds of them did, each counted once |
| `ForkChoice.EffectiveTier` | crates/catalyst-cli/src/fork_choice.rs:52-68 | certificate first, then the inferred quorum unless only certificates count |
| `ForkChoice.VotedUpdatesAreQuorate` | crates/catalyst-consensus/src/phases.rs:595-630 | every update voting builds meets the vote quorum |
| `ForkChoice.FinishedUpdatesAreQuorate` | crates/catalyst-consensus/src/phases.rs:595-630 | every update returned in any run meets the vote quorum |
| `ForkChoice.ConflictIsAccountable` | crates/catalyst-cli/src/fork_choice.rs:139-151 | a reported conflict of certified hashes means a third of the committee signed both |
| `ForkChoice.PreferenceIsTotal` | crates/catalyst-cli/src/fork_choice.rs:161-208 | between different hashes exactly one candidate wins, and beating and being weaker are opposite |
| `ForkChoice.PreferenceIsTransitive` | crates/catalyst-cli/src/fork_choice.rs:161-186 | beating is transitive between different hashes |
| `ForkChoice.ReplacesExactly` | crates/catalyst-cli/src/fork_choice.rs:52-186 | a certified update replaces one that is not, then one with a vote quorum unless only certificates count, then one with a certified root, then the smaller hash, and nothing else does |
| `ForkChoice.ConflictReported` | crates/catalyst-cli/src/fork_choice.rs:139-151 | a conflict is reported if and only if another hash is on record |
| `ForkChoice.CanonicalSlot.CandidateFor` | crates/catalyst-cli/src/node.rs:4388-4461 | the candidate as looked up now: the named certificate if one is named, else the recorded one; the state-root certificate always from the record |
| `ForkChoice.CanonicalSlot.RejectsWeaker` | crates/catalyst-cli/src/node.rs:4463-4522 | true if and only if a different hash is stored that, looked up now, is preferred |
| `ForkChoice.CanonicalSlot.Persist` | crates/catalyst-cli/src/node.rs:366-426 | the slot takes the announced hash if and only if it is empty or that hash beats the stored one as looked up now; evidence stays |
| `ForkChoice.CanonicalSlot.RecordApplied` | crates/catalyst-cli/src/node.rs:3851-3867 | the slot takes the hash of an applied update without a comparison |
| `ForkChoice.CanonicalSlot.RecordCertificate` | crates/catalyst-cli/src/node.rs:7297-7304 | the recorded certificate is replaced, whatever it verifies for |
| `ForkChoice.CanonicalSlot.RecordRootCertificate` | crates/catalyst-cli/src/node.rs:7395-7402 | the recorded state-root certificate is replaced |
| `ForkChoice.CanonicalSlot.Follow` | crates/catalyst-cli/src/node.rs:366-426 | handling events in turn leaves the slot that the fold of the step function gives |
| `ForkChoice.ConvergenceExactly` | crates/catalyst-cli/src/node.rs:4388-4522 | every order of announcements, applied updates and evidence, with repetitions, ends on a hash if and only if it is announced or applied and, under all evidence on record at some moment, no other candidate displaces it and against each one of them some event naming it prevails |
| `ForkChoice.AppliedDecides` | crates/catalyst-cli/src/node.rs:3851-3867 | when an update is applied, all orders agree if and only if on its hash and nothing displaces it |
| `ForkChoice.NodesConverge` | crates/catalyst-cli/src/node.rs:4463-4522 | with equal settled evidence, nodes that hear the same candidates again end in the same slot, whichever of them each had kept |
| `ForkChoice.CertifiedHeadStays` | crates/catalyst-cli/src/node.rs:4388-4411 | a stored hash with a recorded certificate stays, whatever is announced, until another certificate is recorded or named or another update is applied |
| `ForkChoice.LateEvidenceDiverges` | crates/catalyst-cli/src/node.rs:366-426 | the same two announcements and certificate end on different hashes when the certificate comes after the displacement, and a new announcement mends it |
| `Store.Storage.CreateSnapshot` | crates/catalyst-storage/src/snapshot.rs:126-128 | saves the whole database under a name used once |
| `Store.Storage.LoadSnapshot` | crates/catalyst-storage/src/manager.rs:442-444 | reverts the whole database, metadata included |
| `Store.Storage.SetMetadata` | crates/catalyst-storage/src/manager.rs:353-365 | changes one key |
| `Checkpoint.BlobRoundTrip` | crates/catalyst-cli/src/checkpoint.rs:30-61 | decoding inverts encoding if and only if the name is non-empty UTF-8, and accepts only encodings |
| `Checkpoint.NamesAreReadable` | crates/catalyst-cli/src/checkpoint.rs:16-18 | every name a checkpoint is written under is such a name |
| `Checkpoint.NamesDiffer` | crates/catalyst-cli/src/checkpoint.rs:16-18 | different cycles have different snapshot names |
| `Checkpoint.NameReads` | crates/catalyst-cli/src/checkpoint.rs:16-18 | the name is the prefix and the cycle in decimal digits |
| `Checkpoint.WriteCheckpoint` | crates/catalyst-cli/src/checkpoint.rs:110-143 | snapshot of the database before the record, then record and latest-cycle entry; nothing at all if the snapshot exists |
| `Checkpoint.FindLatestAtOrBelow` | crates/catalyst-cli/src/checkpoint.rs:146-165 | the record at the latest-cycle entry, or the newest in the scan window when that entry is past the bound |
| `Checkpoint.ScanFindsNewest` | crates/catalyst-cli/src/checkpoint.rs:155-162 | the downward scan finds the newest readable record of its window |
| `Checkpoint.WritingKeepsTidy` | crates/catalyst-cli/src/checkpoint.rs:122-133 | checkpoints written in order keep records readable and the latest-cycle entry newest |
| `Checkpoint.LookupExactly` | crates/catalyst-cli/src/checkpoint.rs:146-165 | on such a store the answer is the newest checkpoint at or below the bound if and only if the latest-cycle entry is, or none exists, or one lies within the scan window |
| `Checkpoint.ScanWindowExactly` | crates/catalyst-cli/src/checkpoint.rs:155-162 | below the newest checkpoint something is found if and only if a record lies at the bound or at most 4096 cycles below |
| `Checkpoint.LookupMissesOldCheckpoint` | crates/catalyst-cli/src/checkpoint.rs:146-165 | such a store, with checkpoints at cycles 1 and 10000, where none is found for 9000 |
| `Recovery.SaveHistory` | crates/catalyst-cli/src/checkpoint.rs:195-217 | every cycle of the range with an update or state root is saved with its four values |
| `Recovery.Restore` | crates/catalyst-cli/src/checkpoint.rs:189-266 | accounts are the snapshot's, heads name the checkpoint, saved cycles keep their values, everything else is the snapshot's; a missing snapshot changes nothing |
| `Recovery.RestoreKeepsHistory` | crates/catalyst-cli/src/checkpoint.rs:195-266 | each of the four values of a cycle past the checkpoint up to the old head is kept if the cycle has an update or a root, else it is the snapshot's |
| `Recovery.RestoreRevertsRest` | crates/catalyst-cli/src/checkpoint.rs:189-266 | all other metadata but the three heads is the snapshot's |
| `Recovery.ReconcileForMissingPrefix` | crates/catalyst-cli/src/checkpoint.rs:300-327 | a checkpoint below the target with unbroken history after it or after the pruned boundary |
| `Recovery.ReconciledExactly` | crates/catalyst-cli/src/checkpoint.rs:300-327 | where the lookup sees it, reconcile offers exactly the newest checkpoint below the target, with unbroken history after it or the pruned boundary |
| `Recovery.ReplayExactly` | crates/catalyst-cli/src/checkpoint.rs:189-327 | after a reconciled restore the head is the checkpoint, and every cycle up to the target holds its pre-restore update if and only if none up to the pruned boundary was missing |
| `Recovery.RestoreThenReplay` | crates/catalyst-cli/src/checkpoint.rs:179-266 | so it always holds when pruning has not passed the checkpoint |
| `Recovery.GapBelowPrunedBoundary` | crates/catalyst-cli/src/checkpoint.rs:315-324 | a store where it fails |
| `Recovery.LookupsRevert` | crates/catalyst-cli/src/checkpoint.rs:189-266 | after a restore every lookup answers as on the snapshot |
| `Recovery.RestoreForgetsExactly` | crates/catalyst-cli/src/checkpoint.rs:110-165 | some later lookup returns the restored checkpoint if and only if the store recorded it before the checkpoint was written; a reconcile too, short of the last cycle number |
| `Recovery.CheckpointThenRestore` | crates/catalyst-cli/src/checkpoint.rs:110-266 | writing a checkpoint and restoring it takes every lookup back to before the write, and its snapshot name stays taken |
| `Recovery.FirstCheckpointIsForgotten` | crates/catalyst-cli/src/checkpoint.rs:110-133 | a store whose only checkpoint is found before the restore from it and never after |
| `Pruning.DeleteCycle` | crates/catalyst-cli/src/pruning.rs:161-208 | removes exactly the keys of the cycle, its transactions and its hash index |
| `Pruning.PruneOnce` | crates/catalyst-cli/src/pruning.rs:117-222 | removes the next batch behind head minus keep and moves the marker, or does nothing |
| `Pruning.NextRange` | crates/catalyst-cli/src/pruning.rs:122-156 | the next batch after the marker, cut at head minus keep minus one; none when keep is zero or nothing is left |
| `Pruning.PrunedExactly` | crates/catalyst-cli/src/pruning.rs:161-208 | exactly the history, index and commitment of the pruned cycles, the transactions their own indexes list and the entries of their update hashes are gone; every other key is unchanged |
| `Pruning.PruningRunsAreSafe` | crates/catalyst-cli/src/pruning.rs:117-222 | over any chain of stores under runs, restores and other writes: each run cuts a full batch from right after its marker, or up to more than its keep behind its own head, and nothing only if nothing is there or pruning is off; without a restore in between a later range lies above every earlier one that was marked, next to the last of them |
| `Pruning.PruningFollowsHead` | crates/catalyst-cli/src/pruning.rs:122-140 | the head a run keeps its distance from is the last applied cycle |
| `Pruning.RunErasesItsRange` | crates/catalyst-cli/src/pruning.rs:161-222 | a run removes exactly what belongs to the cycles of its range, and besides changes the marker at most |
| `Pruning.MarkerStays` | crates/catalyst-cli/src/pruning.rs:140-156 | without a restore the marker never falls back and stays until the next marked cut |
| `Pruning.RestoreRewindsRanges` | crates/catalyst-cli/src/checkpoint.rs:189-266 | after a restore the next range starts right after the snapshot's marker |
| `Pruning.RunsKeepRecoverable` | crates/catalyst-cli/src/pruning.rs:117-222 | from complete history after the newest checkpoint, with nothing between it and the target in pruning's reach, reconcile still returns it after any number of runs and that history is unchanged |
| `Pruning.PrunedNodeCanReplay` | crates/catalyst-cli/src/checkpoint.rs:300-327 | then prune, reconcile and restore leave every update of the replay unchanged |
| `Pruning.ReplayAfterPruningExactly` | crates/catalyst-cli/src/checkpoint.rs:300-327 | from complete history, every restore that reconcile offers after any runs can be replayed if and only if keep is zero or the checkpoint or the marker has reached the pruning limit or the target |
| `Pruning.RunHidesGap` | crates/catalyst-cli/src/pruning.rs:117-222 | otherwise one run removes an update of the replay and reconcile still offers the checkpoint |
| `Selection.Xor32` | crates/catalyst-core/src/protocol.rs:749-755 | bytewise exclusive or |
| `Selection.XorInjective` | crates/catalyst-core/src/protocol.rs:749-755 | different workers never score the same |
| `Selection.DistanceIsXor` | crates/catalyst-core/src/protocol.rs:749-755 | each bit of the score is set exactly if worker and draw differ in it |
| `Selection.SelectionIgnoresOrder` | crates/catalyst-core/src/protocol.rs:643-663 | the selection does not depend on the order of the pool |
| `Selection.SelectionIsNearest` | crates/catalyst-core/src/protocol.rs:643-663 | from a duplicate-free pool exactly min(P, pool) distinct workers, each scoring strictly below all others |
| `Selection.CommitteeDependsOnSet` | crates/catalyst-consensus/src/producer.rs:54-60 | pools that list the same workers once each give the same committee after a reset |
| `Selection.CommitteeIsNearest` | crates/catalyst-core/src/protocol.rs:643-663 | with one id per worker the committee has exactly min(P, pool) members, the ids of workers scoring strictly below all others |
| `Selection.RepeatedWorkerTakesTwoSeats` | crates/catalyst-core/src/protocol.rs:643-663 | a worker listed twice is selected twice and displaces another |
| `FeeFlow.DebitedSender` | crates/catalyst-cli/src/tx.rs:216-228 | the one debited key, or none when there is no debit or more than one key |
| `FeeFlow.SenderPubkey` | crates/catalyst-cli/src/tx.rs:211-231 | the first key for registrations and contract calls, the debited key otherwise |
| `FeeFlow.MarkerSender` | crates/catalyst-cli/src/tx.rs:211-231 | a registration or contract call is sent by the key of its first entry, or nobody without one |
| `FeeFlow.ToConsensusEntries` | crates/catalyst-cli/src/tx.rs:133-209 | marker entry or visible amounts, then the fee debit if it can be charged |
| `FeeFlow.EntriesNet` | crates/catalyst-cli/src/tx.rs:133-209 | the entries of a transaction sum to what it moves minus what it is charged |
| `FeeFlow.EntriesByKey` | crates/catalyst-cli/src/tx.rs:133-231 | for each key they sum to its visible amounts, less the charge if it is the sender |
| `FeeFlow.EntriesSigned` | crates/catalyst-cli/src/tx.rs:133-209 | all carry the transaction's signature, marked for registrations and contract calls |
| `FeeFlow.FeesRecovered` | crates/catalyst-consensus/src/phases.rs:69-80 | for balanced transfers construction finds exactly the charged fees, capped at u64 |
| `FeeFlow.ChargedExactly` | crates/catalyst-cli/src/tx.rs:193-209 | charged equals declared if and only if each transaction with a fee has a sender and a fee that fits i64 |
| `FeeFlow.FeesRecoveredExactly` | crates/catalyst-cli/src/tx.rs:133-231 | for balanced batches construction finds the declared fees, clamped at u64, if and only if all were charged or the charged ones fill u64 |
| `FeeFlow.FeeFlowEndToEnd` | crates/catalyst-cli/src/tx.rs:133-231 | in particular when each transaction with a fee has a sender and a fee that fits i64 |
| `FeeFlow.ValidMarkersPay` | crates/catalyst-core/src/protocol.rs:490-545 | a valid registration or contract call has a sender and pays its fee if and only if it fits i64 |
| `Validity.AcceptableExactly` | crates/catalyst-core/src/protocol.rs:429-545 | what the checks accept, with their numbers |
| `Validity.AcceptableLater` | crates/catalyst-cli/src/tx.rs:111-131 | waiting or paying more never makes a transaction unacceptable |
| `FeeFlow.TwoDebitsPayNothing` | crates/catalyst-core/src/protocol.rs:490-545 | a balanced transfer that debits two keys is valid, and construction finds none of its fee |
| `Mempool.Pool.constructor` | crates/catalyst-cli/src/tx.rs:470-483 | an empty pool with limits of at least one and no drops counted |
| `Mempool.Pool.Insert` | crates/catalyst-cli/src/tx.rs:485-505 | accepts exactly new ids below capacity, after eviction, never replacing an item; the limits hold |
| `Mempool.Pool.InsertProtocol` | crates/catalyst-cli/src/tx.rs:507-546 | accepts exactly transactions that pass their own checks, are new, below capacity and below their sender's limit; sender, nonce and entries are those of the transaction, a drop for capacity or sender is counted, and nothing changes for an invalid one |
| `Mempool.Pool.EvictExpired` | crates/catalyst-cli/src/tx.rs:560-563 | removes exactly what is older than the time to live |
| `Mempool.UnexpiredExactly` | crates/catalyst-cli/src/tx.rs:560-563 | an item of age at most the time to live stays as it is, an older one goes |
| `Mempool.Pool.FreezeAndDrain` | crates/catalyst-cli/src/tx.rs:567-585 | a prefix of all unexpired entries in some order of the transactions; the pool is empty |
| `Mempool.DrainedFees` | crates/catalyst-cli/src/tx.rs:567-585 | from balanced protocol transactions drained in any order and cut anywhere, construction finds what those taken whole are charged less the net of the torn one's entries, clamped to u64; and exactly the charge if and only if that net is zero or hidden by the clamps |
| `Mempool.WholeDrain` | crates/catalyst-cli/src/tx.rs:567-585 | a drain that is not cut takes all transactions whole |
| `Mempool.CutDrainMisjudges` | crates/catalyst-cli/src/tx.rs:567-585 | a valid transfer of 7 with a fee of 5 yields fees of 5, 7 or 0 depending on the cut |
| `Mempool.Pool.SnapshotProtocolTxs` | crates/catalyst-cli/src/tx.rs:591-608 | the first unexpired protocol transactions in strictly increasing id order, and nothing but expired items removed |
| `Mempool.CountOfSender` | crates/catalyst-cli/src/tx.rs:522-528 | counts the items of a sender |
| `Mempool.MaxNonceForSender` | crates/catalyst-cli/src/tx.rs:548-558 | the largest nonce of a sender's items, none if there is none |
| `Clock.CycleIndex` | crates/catalyst-cli/src/consensus_limits.rs:90-95 | the cycle whose slot contains the time |
| `Clock.IngressIsDistance` | crates/catalyst-cli/src/consensus_limits.rs:129-142 | a message is admitted if and only if its cycle is within slack of the receiver's or there are no cycles |
| `Clock.IngressTracksClocks` | crates/catalyst-cli/src/consensus_limits.rs:129-142 | clocks within slack cycles admit each other, clocks a further cycle apart never do |
| `Clock.DeadlineAfterSlotExactly` | crates/catalyst-cli/src/consensus_limits.rs:271-283 | the deadline is past the cycle's slot if and only if the end of the slot is representable |
| `Clock.DeadlineIsFirst` | crates/catalyst-cli/src/consensus_limits.rs:271-283 | it is the first time past both the grace period and the slot |
| `Clock.FollowerWaits` | crates/catalyst-cli/src/consensus_limits.rs:371-389 | the soft deadline is the budget, or two seconds before the slot ends if that is earlier |
| `Clock.FollowerStopsExactly` | crates/catalyst-cli/src/consensus_limits.rs:371-389 | short of overflow, the soft deadline precedes the hard stop if and only if the slot ends after 500 ms, and the hard stop lies in the slot if and only if cycles last 500 ms or it is the first |
| `Clock.FollowerStopsInSlot` | crates/catalyst-cli/src/consensus_limits.rs:371-389 | so for cycles of at least two seconds the soft deadline precedes a hard stop inside the slot |

## Left out

- Channels, locks, select loops, rebroadcast timers, metrics and logging: delivery is any selection of sent messages.
- Blake2b, SHA-256, Schnorr signatures and bincode: parameters; the legacy bincode transaction decoder is a parameter of `Wire.DecodeWire`.
- ForkChoice.CanonicalSlot.Persist: does not model stored bytes that cannot be read back, or the address and state root kept beside the hash; updates are named by their hash.
- Pruning.PruneOnce: does not model the report's key counters or failing deletes; whether the marker write succeeds is a parameter.
- FeeFlow.ToConsensusEntries: does not model the bincode marker of contract calls, which is a parameter.
- Selection.SelectionIsNearest: does not model the generator that turns the previous root into the draw, which is a parameter.
- Deletion and clean-up of snapshots, and every error of the storage engine other than a duplicate or missing snapshot name.
- The node's apply loop, transaction batch gossip and reconcile driver, RPC, configuration and environment parsing, EVM execution, alerting and the peer-to-peer and DFS layers: input and output or wrappers.
- Unused helpers of the phases, the stale consensus test file, the seed-based selection helper of the engine and the unlisted Merkle proof files of the crypto crate.
