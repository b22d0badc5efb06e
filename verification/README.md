# AptosBFT in Dafny

A model of the Aptos consensus core and of three pieces of the REST read path, with proofs.

The consensus part goes bottom up.

* `Common` holds what every module uses. `Quorum` and `Types` hold weighted voting power, blocks, votes, certificates and their checks.
  Cryptography is symbolic: a hash is the value it was computed from, a signature is a pair of author and
  message, and a certificate carries the set of its signers.
* `SafetyRules` is the object that decides which votes, timeouts and commit votes a validator signs. `SigningExact`
  says of each request when it must be granted and what is then signed and remembered.
* `Network` puts any number of validators together. Honest ones sign what their safety rules allow and crash
  and restart at will; Byzantine ones sign anything. `NetworkInvariant` finds what every step keeps, and
  `CommitSafety` derives that a round has one certificate, that commits of an epoch lie on one chain, and which blocks
  are committed. `Progress` is the other side: at any point of any run, a quorum that is asked to vote in a good round
  votes, and the block before is committed.
* `BlockStore` and `Replication` carry this to the ledgers: committing along the block tree and across epochs, no
  two validators' committed sequences ever diverge, and the assertion inside `commit` never fails.
* `PendingVotes`, `VoteAggregation` and `VoteStats` treat the aggregation of votes into certificates and
  timeout echoes, and the statistics drawn from it. `AggregationExact` determines the answer to every vote from the
  votes before it alone.
* `RoundManager` treats one validator's voting state machine across timeouts and restarts, with the safety
  rules as a black box; `RoundManagerExact` says what each event puts on the wire. `VotingNetwork` puts round managers and Byzantine senders on one wire and gets
  certificate uniqueness from that alone.
* `Recovery` treats crash recovery. `Resumption` joins it to the network and to the round manager: over a validator's
  whole life in an epoch, what it recovers from its database makes it resume no lower than its last vote.
* `Payload`, `StateComputer`, `MetricsSafetyRules` and `EpochManager` treat payload fetching, execution and commit,
  initialising the safety rules, and epoch changes.

`ModulePaging`, `Timestamps` and `GasEstimation` model the REST read path.

Objects the source updates in place are classes. Each of their methods is proved equal to a step function on
values, and the theorems are about every sequence of such steps.

Where the code and its documentation disagree the code is followed. `consensus/README.md` describes a
contiguous 3-chain commit rule; the safety rules implement a 2-chain rule
(`consensus/safety-rules/src/safety_rules_2chain.rs:147-173`), and that is what is modelled.

Five properties do not hold without a condition, and are stated with the exact one.

* Listing an account's modules does not work as the endpoint promises. State keys carry a flag that marks code; every
  constructor of a module's key sets it (`types/src/access_path.rs:73-118`), while the listing accepts only keys
  without it (`api/src/context.rs:371`). A page therefore fails if and only if a module, or a key that does not
  decode, lies at or after its cursor (`ConstructedAccountPage`, `OnePublishedModuleFails`). Were keys stored without
  the flag, the cursor, which is rebuilt with it, would lead past the module it names: the pages together are
  complete if and only if no key is flagged or malformed and everything fits on one page (`PagingCompleteExactly`,
  `CollectedModules`).
* A restart keeps a validator from contradicting itself exactly when the round it resumes in is safe (`ResumeExact`);
  judging by the persisted vote alone, exactly when the round is not below the vote's (`ResumeCheckable`). That the
  code always resumes there is `RecoveryResumesAtPersisted`.
* The computed gas median is a median exactly when no average saturates (`MedianExact`).
* A checked quorum store message of the current epoch is accepted exactly when the epoch was entered with full
  recovery and its quorum store is on. While the quorum store is on, the error left is a push into the channel of
  an earlier epoch's closed quorum store, which happens exactly when the epoch was entered in recovery mode
  (`QuorumStoreEventsExactly`, `ClosedQuorumStoreRefuses`). No component of another epoch ever gets an event.
* The gas estimates and dependencies handed to the executor go with its transactions when the payload carries them;
  for a quorum store payload there are always two, so they match if and only if the block has no transactions
  (`QuorumStoreRegisterExactly`).

## Model

| member | source | states |
|---|---|---|
| Quorum.CheckVotingPower | types/src/validator_verifier.rs:321-341 | the loop over signers reports an unknown author, a quorum, or the exact power still short of one, by the definition of weighted power |
| Quorum.SumVotingPower | types/src/validator_verifier.rs:388-393 | the total is the power of all validators together |
| Quorum.QuorumsShareHonest | consensus/README.md:19-19 | any two quorums share an honest validator when twice the quorum exceeds the total plus the Byzantine power |
| Quorum.DefaultVerifierResilient | types/src/validator_verifier.rs:145-153 | the default threshold of two thirds plus one satisfies that condition whenever the Byzantine power is under a third |
| Quorum.DefaultVerifierReachable | types/src/validator_verifier.rs:145-153 | it is the least threshold above two thirds, so the honest validators reach it on their own |
| SafetyRulesModel.VerifyQuorumCert | consensus/consensus-types/src/quorum_cert.rs:109-138 | decides certificate validity: genesis form, or a non-empty quorum over well-linked vote data of the same digest |
| SafetyRulesModel.VerifyTimeoutCert | consensus/consensus-types/src/timeout_2chain.rs:142-178 | accepts exactly certificates signed by a quorum whose highest attested round is that of the carried certificate, which itself verifies |
| SafetyRulesModel.SafetyRules.ConstructAndSignVoteTwoChain | consensus/safety-rules/src/safety_rules_2chain.rs:49-91 | signs and persists as the step function that `VoteExactly`, `NewVote` and the network theorems determine, leaving the state alone on every error |
| SafetyRulesModel.SafetyRules.SignTimeoutWithQc | consensus/safety-rules/src/safety_rules_2chain.rs:18-47 | signs and persists as the step function that `TimeoutExactly` determines |
| SafetyRulesModel.SafetyRules.SignCommit | consensus/safety-rules/src/safety_rules.rs:328-362 | answers as `CommitVoteExactly` determines; state unchanged |
| SafetyRulesModel.SafetyRules.InitializeWith | consensus/safety-rules/src/safety_rules.rs:216-300 | moves waypoint, epoch, history and signer as `InitializeExactly` determines |
| SafetyRulesModel.SafeToVote | consensus/safety-rules/src/safety_rules_2chain.rs:122-137 | a vote is allowed exactly when the block extends the previous round, or follows a timeout certificate of the previous round and its parent reaches the highest round that one attests |
| SafetyRulesModel.SafeToTimeout | consensus/safety-rules/src/safety_rules_2chain.rs:96-119 | a timeout is allowed exactly when it follows its certificate or the timeout certificate, and attests a certified round no lower than the one-chain round |
| SafetyRulesModel.ObserveQc | consensus/safety-rules/src/safety_rules.rs:102-124 | observing a certificate raises the remembered one-chain and preferred rounds to the certificate's if higher, and touches nothing else |
| SafetyRulesModel.VerifyProposal | consensus/safety-rules/src/safety_rules.rs:58-78 | a proposal passed on is of the current epoch, carries a valid certificate and is well formed |
| SafetyRulesModel.SignedVoteIsOfBlockRound | consensus/safety-rules/src/safety_rules_2chain.rs:66-71 | whatever vote is returned, a repeated one included, is of the block's round |
| SigningExact.CertificateExactly | consensus/consensus-types/src/quorum_cert.rs:109-138 | a certificate is valid if and only if it is the unsigned one of a first block, or a non-empty set of validators of sufficient power is behind a link to a higher round of the same epoch, with time and version not going back |
| SigningExact.TimeoutCertExactly | consensus/consensus-types/src/timeout_2chain.rs:142-178 | a timeout certificate is valid if and only if validators of sufficient power signed, the highest round attested is that of the carried certificate, and that one is valid and of an earlier round |
| SigningExact.WellFormedExactly | consensus/consensus-types/src/block.rs:267-337 | the well-formed blocks of each kind: failed authors of strictly ascending rounds between parent and block, for which there is then always room, a NIL or reconfiguration-suffix block with its parent's time, a proposal with a later time at most five minutes ahead |
| SigningExact.VoteExactly | consensus/safety-rules/src/safety_rules_2chain.rs:49-91 | a vote is given if and only if the proposal is valid, of the epoch, and repeats the vote of the round or is of a new round that follows its certificate or the timeout certificate |
| SigningExact.RepeatedVote | consensus/safety-rules/src/safety_rules_2chain.rs:64-71 | asked again in a round, the same vote comes back and nothing is written |
| SigningExact.NewVote | consensus/safety-rules/src/safety_rules_2chain.rs:73-173 | a new vote names the block and its parent, commits the parent if it is of the round just before and nothing otherwise, and is remembered with the rounds the certificate shows |
| SigningExact.TimeoutExactly | consensus/safety-rules/src/safety_rules_2chain.rs:18-47 | a timeout is signed if and only if it is valid, of the epoch, not below the last voted round, follows its certificate or the timeout certificate, and shows what earlier votes were based on; only the last voted round moves |
| SigningExact.TimeoutAfterVote | consensus/safety-rules/src/safety_rules_2chain.rs:33-43 | right after voting in a round, a timeout of that round on the same or a higher certificate is signed without a write |
| SigningExact.CommitVoteExactly | consensus/safety-rules/src/safety_rules.rs:328-362 | a commit vote is given if and only if a quorum signed the order and the executed ledger info agrees with it on epoch, round, id and time, a reconfiguration's earlier time aside |
| SigningExact.InitializeExactly | consensus/safety-rules/src/safety_rules.rs:216-300 | initialisation succeeds if and only if the proof leads to this epoch or a later one, changes can be saved, and the validator belongs to it and has its key; the history is cleared exactly when the epoch is later |
| SigningExact.FreshStartSigns | consensus/safety-rules/src/safety_rules.rs:260-292 | after a crash, initialising in the same epoch with the key in storage restores the signer and keeps the history |
| NetworkInvariant.VoteStepKeepsInv | consensus/safety-rules/src/safety_rules_2chain.rs:49-91 | a vote keeps one vote per round and validator, justified votes, and timeouts that respect earlier votes |
| NetworkInvariant.TimeoutStepKeepsInv | consensus/safety-rules/src/safety_rules_2chain.rs:18-47 | a timeout keeps the same, so no timeout attests less than what its signer's earlier votes locked |
| NetworkInvariant.CommitStepKeepsInv | consensus/safety-rules/src/safety_rules.rs:328-362 | a commit vote only repeats an order that a quorum had voted for |
| NetworkInvariant.EpochStepKeepsInv | consensus/safety-rules/src/safety_rules.rs:216-300 | changing epochs loses no promise made in an earlier one |
| NetworkInvariant.RunKeepsInv | consensus/README.md:19-19 | all of it holds in every reachable state, crashes and simultaneous restarts included |
| CommitSafety.CertifiedUnique | consensus/safety-rules/src/safety_rules_2chain.rs:66-80 | at most one proposal per epoch and round can be certified |
| CommitSafety.NoCertificateBelowCommit | consensus/safety-rules/src/safety_rules_2chain.rs:96-137 | after a commit nothing of a later round can be certified on a parent below it |
| CommitSafety.CertifiedExtendsCommit | consensus/safety-rules/src/safety_rules_2chain.rs:122-137 | every certified proposal from the committed round on has the committed block as ancestor through certified blocks |
| CommitSafety.CertifiedCommits | consensus/safety-rules/src/safety_rules_2chain.rs:147-173 | a certified block right on top of one of the round before is a commit proof for that one |
| CommitSafety.CommittedExactly | consensus/safety-rules/src/safety_rules_2chain.rs:147-173 | in every reachable state, certified vote data has a commit proof if and only if its parent is of the round just before and not the first |
| CommitSafety.Agreement | consensus/safety-rules/src/safety_rules_2chain.rs:147-173 | any two commit proofs of an epoch, held anywhere at any two moments of any run, name blocks one of which extends the other |
| CommitSafety.CertificateUniqueness | consensus/safety-rules/src/safety_rules_2chain.rs:49-91 | two verifying quorum certificates of one epoch and round carry the same vote data and commit the same block |
| Progress.GoodRoundCommits | consensus/safety-rules/src/safety_rules_2chain.rs:49-173 | every run in which a quorum is initialised and has signed nothing as high as a sound proposal goes on to certify that proposal, and to commit the block before if that is of the round before |
| BlockStoreModel.PathExact | consensus/src/block_storage/block_tree.rs:369-396 | the path function yields a path exactly when that sequence is the parent-linked path from the root |
| BlockStoreModel.PathFromRootToBlock | consensus/src/block_storage/block_tree.rs:369-396 | the walk down the parent links, reversed, is that path; nothing if the walk misses the root |
| BlockStoreModel.BlockStore.Commit | consensus/src/block_storage/block_store.rs:257-303 | hands over exactly the blocks of the outcome that `CommitExactly` determines, in order, and moves the root, or changes nothing |
| BlockStoreModel.CommitExactly | consensus/src/block_storage/block_store.rs:257-303 | a commit of an unknown block is an error, one not above the root is stale, one above it commits precisely the chain of stored blocks from the root up to it, and without such a chain the assertion fails |
| Replication.SystemRunKeepsInv | consensus/src/block_storage/block_store.rs:257-303 | in every run each replica's ledger lists the ancestors of its root, its root was proven committed in its epoch, and each epoch it left was ended by a proven ledger info |
| Replication.ClosedUnique | consensus/src/epoch_manager.rs:415-439 | everyone who has left an epoch has the same executed blocks of it, whichever block their epoch-ending ledger info committed |
| Replication.LedgersNeverDiverge | consensus/README.md:12-19 | what any two validators have committed, at any two moments and in whatever epochs they are, is a prefix one of the other; within an epoch this holds block by block |
| Replication.CommitNeverInconsistent | consensus/src/block_storage/block_store.rs:257-275 | in every run the assertion that the path to commit is not empty cannot fail for a proven block stored with its ancestors down to the root's round |
| PendingVotesModel.PendingVotes.constructor | consensus/src/pending_votes.rs:75-83 | a new collection is the empty one the run lemmas start from |
| PendingVotesModel.PendingVotes.InsertVote | consensus/src/pending_votes.rs:86-205 | updates the four collections in place as the step function whose answers `AnswerExactly` determines |
| PendingVotesModel.PendingVotes.CollectTimeout | consensus/src/pending_votes.rs:211-256 | the timeout half of that: partial certificate, echo flag and answer, as `TimeoutAnswers` and `TimeoutCertificateAttests` determine |
| PendingVotesModel.PendingVotes.DrainVotes | consensus/src/pending_votes.rs:265-293 | hands out all digests with their signers and the partial timeout certificate, empties both, and keeps who voted for what |
| PendingVotesModel.BookkeepingExact | consensus/src/pending_votes.rs:98-145 | after any insertions an author is counted under the digest of its first vote and under no other |
| PendingVotesModel.SignersDisjoint | consensus/src/pending_votes.rs:98-145 | the signer sets of different digests are disjoint |
| PendingVotesModel.OneDigestReachesQuorum | consensus/src/pending_votes.rs:175-205 | with a threshold above half the power, at most one digest reaches it |
| PendingVotesModel.CertificateIffQuorum | consensus/src/pending_votes.rs:175-205 | some call returns a certificate for a digest if and only if its distinct voters reach the threshold |
| PendingVotesModel.ArrivalOrderIrrelevant | consensus/src/pending_votes.rs:86-205 | collections fed the same non-equivocating votes in any order, with repeats, end with the same signers per digest and certify the same digests |
| VoteAggregation.TcInvariant | consensus/consensus-types/src/timeout_2chain.rs:237-258 | the partial timeout certificate always carries the highest attested round of its signers |
| VoteAggregation.TimeoutCountedOnce | consensus/consensus-types/src/timeout_2chain.rs:237-258 | any further vote of an author already counted as timed out changes nothing |
| VoteAggregation.CertificatesVerify | consensus/src/pending_votes.rs:175-256 | from verified votes, every quorum and timeout certificate handed out passes certificate verification |
| VoteAggregation.RunTcGrows | consensus/src/pending_votes.rs:211-233 | timeout signers only grow and the echo flag never falls |
| VoteAggregation.EchoAtMostOnce | consensus/src/pending_votes.rs:235-256 | a round echoes a timeout at most once, and never after its timeout certificate has formed |
| VoteAggregation.EchoHasHonestTimeout | consensus/src/pending_votes.rs:246-256 | an echo means an honest validator has timed out, if the Byzantine power is at most what a quorum can miss |
| AggregationExact.TcSignersExact | consensus/src/pending_votes.rs:207-233 | after any votes the partial timeout certificate holds exactly the authors who sent a timeout for the digest they first voted for while that digest was short of a certificate |
| AggregationExact.AnswerExactly | consensus/src/pending_votes.rs:86-256 | every vote is answered as the votes before it determine: equivocation, duplicate, unknown author, quorum certificate with exactly the digest's voters, timeout certificate, echo, or the exact power so far |
| AggregationExact.TimeoutAnswers | consensus/src/pending_votes.rs:211-256 | a timeout certificate is handed out if and only if the vote adds its author to those timed out and they reach the threshold; an echo if and only if it adds its author, they have more power than a quorum can miss and less than a quorum, and no vote was answered with an echo before |
| AggregationExact.TimeoutCertificateAttests | consensus/consensus-types/src/timeout_2chain.rs:237-258 | a timeout certificate gives for each signer the round its first counted timeout attested, and carries a counted timeout of the highest such round |
| VoteAggregation.AggregatedCertificatesUnique | consensus/src/pending_votes.rs:86-205 | certificates aggregated anywhere in a run of validators obeying the safety rules agree on vote data and committed block |
| VotingNetwork.RunKeepsInv | consensus/src/round_manager.rs:744-808 | in every run each honest vote on the wire was sent by its author's round manager, and each inserted vote came from the wire |
| VotingNetwork.RestartEnabled | consensus/src/round_manager.rs:929-940 | in every reachable state a validator may restart in any round not below its persisted vote's |
| VotingNetwork.CertificatesUnique | consensus/src/round_manager.rs:771-808 | pending votes of one round at any two validators never certify different ledger infos, whatever the safety rules answer and with validators restarting as their disks tell them |
| VoteStats.LexMax | consensus/src/round_manager.rs:326-345 | the lexicographic maximum is at most the sum in both components, so neither subtraction underflows |
| VoteStats.CollectVoteStats | consensus/src/round_manager.rs:321-350 | maximum and conflicting weight add up to the weight of all digests, componentwise |
| VoteStats.CollectedPowerWithinTotal | consensus/src/pending_votes.rs:265-293 | for votes drained from any reachable collection that sum is at most the total power |
| RoundManagerModel.RoundManager.ProcessCertificates | consensus/src/liveness/round_state.rs:241-272 | a higher certified round enters a new round with no vote sent; otherwise nothing changes |
| RoundManagerModel.RoundManager.Vote | consensus/src/round_manager.rs:771-808 | refuses while a vote of this round has been sent; a vote it returns is the one storage now holds |
| RoundManagerModel.RoundManager.ProcessVerifiedProposal | consensus/src/round_manager.rs:744-763 | votes, records and sends as the step function that `ProposalExactly` determines |
| RoundManagerModel.RoundManager.ProcessLocalTimeout | consensus/src/round_manager.rs:566-621 | repeats this round's vote as a timeout, or votes for a NIL block first, as the step function that `TimeoutExactly` determines |
| RoundManagerModel.RoundManager.EnsureRoundAndSyncUp | consensus/src/round_manager.rs:507-524 | stale messages are dropped, and a message is processed only in its own round |
| RoundManagerModel.RoundManager.Init | consensus/src/round_manager.rs:929-940 | a restart records the persisted vote if it is of the round resumed in |
| RoundManagerModel.RoundManager.Process | consensus/src/round_manager.rs:980-1007 | every event is handled as the step function that `ProposalExactly`, `TimeoutExactly` and `OthersQuiet` determine |
| RoundManagerModel.RoundManager.Start | consensus/src/round_manager.rs:968-1029 | the main loop leaves the state the run lemmas are about |
| RoundManagerExact.ProposalExactly | consensus/src/round_manager.rs:744-808 | a proposal of the current round is voted for if and only if the validator is not catching up, has no vote in the round, and the vote is signed and saved; then exactly that vote is stored, recorded and sent |
| RoundManagerExact.TimeoutExactly | consensus/src/round_manager.rs:566-613 | a due timeout sends the round's vote, or a NIL vote that could be obtained, as a timeout of its epoch and round on the highest certificate, if and only if it is one already or the signature is given; the state after is determined in every case |
| RoundManagerExact.OthersQuiet | consensus/src/round_manager.rs:507-524 | every other event sends and stores nothing; a higher certified round starts with no vote on record, and a restart records the stored vote exactly if it is of the round resumed in |
| RoundManagerExact.TimeoutsGoOut | consensus/src/round_manager.rs:597-613 | in every run, a due timeout, by timer or by echo, extends what was sent by exactly one timeout of the vote on disk if signed, and by nothing otherwise |
| RoundManagerExact.VotesGoOut | consensus/src/round_manager.rs:744-763 | in every run, a due proposal extends what was sent by exactly its signed and saved vote, or by nothing |
| RoundManagerExact.NothingElseGoesOut | consensus/src/round_manager.rs:980-1007 | in every run, nothing is sent but for a due proposal or timeout |
| RoundManagerModel.HonestNeverEquivocates | consensus/src/round_manager.rs:744-808 | over every interleaving of proposals, delayed proposals, votes, timeouts and safe restarts, all messages of one round carry the same vote, and each was sent after that vote was persisted |
| RoundManagerModel.ResumeExact | consensus/src/round_manager.rs:929-940 | a restart can never lead to contradicting votes if and only if nothing was sent above the round resumed in and anything sent in it is the persisted vote's |
| RoundManagerModel.UnsafeResumeEquivocates | consensus/src/round_manager.rs:929-940 | any other restart has a continuation in which the validator contradicts itself |
| RoundManagerModel.ResumeCheckable | consensus/src/round_manager.rs:929-940 | from the persisted vote alone: resuming at a round is safe in every state reached with that vote stored if and only if the round is not below the vote's |
| RoundManagerModel.ResumeBelowPersistedEquivocates | consensus/src/round_manager.rs:929-940 | a run that sends a vote and resumes below it continues to a contradicting vote |
| RoundManagerModel.PersistedResumesPermitted | consensus/src/round_manager.rs:578-613 | restarts that resume no lower than the persisted vote's round are always safe |
| Resumption.NodeRunKeepsInv | consensus/src/block_storage/block_store.rs:409-458 | over every sequence of insertions, certificates, votes, downloads, commits with pruning and restarts, with pruned blocks lingering in memory, the rounds moved through stay covered by certificates that survive recovery |
| Resumption.InMemoryCounts | consensus/src/block_storage/block_tree.rs:256-292 | a certificate inserted for a block of the in-memory tree, even one deleted from the database, is not above the root or is of a stored descendant of it |
| Resumption.MovedCovered | consensus/src/block_storage/block_tree.rs:417-447 | pruning at a commit never deletes the last certificate for the validator's round |
| Resumption.RecoveryResumesAtPersisted | consensus/src/round_manager.rs:929-935 | in every run, the round after the highest recovered certificate is not below the persisted vote's round |
| Resumption.RestartFrom | consensus/src/persistent_liveness_storage.rs:348-418 | recovering from the database and inserting its certificates succeeds exactly when the root is available and yields that round |
| Resumption.ResumesAfterHighest | consensus/src/liveness/round_state.rs:241-272 | recovery resumes in the round right after one of its certificates, and has none of a later round |
| Resumption.RecoveredRestartEnabled | consensus/src/round_manager.rs:929-935 | a restart from the recovered data is one the voting network admits, so its certificates stay unique |
| Recovery.SortByKey | consensus/src/persistent_liveness_storage.rs:113-114 | a permutation of the blocks, ascending by epoch and round |
| Recovery.FindRoot | consensus/src/persistent_liveness_storage.rs:83-145 | finds the last committed block, or the virtual genesis of the next epoch, if and only if it is stored, a certificate certifies it, and the first certificate that commits it agrees with the stored proof on epoch, round, id and time; each error has its exact condition, and the certificates returned are the first ones |
| Recovery.Certify | consensus/src/persistent_liveness_storage.rs:122-144 | the one right result for a chosen root: which error, or which certificates, by the first certificate for it and the first that commits it |
| Recovery.BoundaryRootAvailable | consensus/src/persistent_liveness_storage.rs:93-106 | after an epoch has ended, the root is the first block of the next one and is always found, unless storage already holds a certificate of its id |
| Recovery.StoredRootAvailable | consensus/src/persistent_liveness_storage.rs:107-137 | within an epoch, whether the root is found depends on the stored blocks and certificates alone, field by field |
| Recovery.FindBlocksToPrune | consensus/src/persistent_liveness_storage.rs:277-305 | both retain passes compute the kept blocks, kept certificates and pruned ids that the lemmas below are about |
| Recovery.PruningExact | consensus/src/persistent_liveness_storage.rs:277-294 | on sorted blocks the single pass keeps exactly the blocks that reach the root by parent links through stored blocks |
| Recovery.UnsortedPruningLosesDescendants | consensus/src/persistent_liveness_storage.rs:285-294 | without the sort a child listed before its parent is lost |
| Recovery.QcPruningExact | consensus/src/persistent_liveness_storage.rs:295-303 | a certificate is kept exactly when it certifies the root or one of its descendants |
| Recovery.KeptInInsertionOrder | consensus/src/persistent_liveness_storage.rs:113-114 | each kept block's parent is the root or comes earlier in the list |
| Recovery.PruningPartitions | consensus/src/persistent_liveness_storage.rs:277-305 | each stored block is kept or pruned, never both, and no pruned id is in the kept tree |
| Recovery.PruningIdempotent | consensus/src/persistent_liveness_storage.rs:277-294 | pruning its own output removes nothing |
| Recovery.QcPruningIdempotent | consensus/src/persistent_liveness_storage.rs:295-303 | the same for certificates |
| Recovery.Recover | consensus/src/persistent_liveness_storage.rs:197-248 | recovery succeeds exactly when the root is available and otherwise fails with the root's error; it yields the root, exactly its stored descendants in insertion order, their certificates, and the vote and timeout certificate of the root's epoch only |
| PayloadModel.RequestTransactions | consensus/src/payload_manager.rs:29-52 | asks for the batches not expired at the block's time, in proof order |
| PayloadModel.UnexpiredOne | consensus/src/payload_manager.rs:36-48 | a batch is asked for unless its expiration is before the block's epoch and round |
| PayloadModel.UnexpiredSplit | consensus/src/payload_manager.rs:36-48 | batches are asked for proof by proof, in order |
| PayloadModel.ProofWithStatus.Prefetch | consensus/src/payload_manager.rs:92-119 | fills an empty status cell with that request and leaves a filled one alone |
| PayloadModel.ProofWithStatus.GetTransactions | consensus/src/payload_manager.rs:123-192 | takes and refills the cell: cached data, all batches joined, or the first failure and a new request |
| PayloadModel.PayloadDeterministic | consensus/src/payload_manager.rs:123-192 | after a prefetch, through any drops, errors and retries, the cell is never empty between calls, no call panics, and every success returns the same transactions |
| PayloadModel.SuccessIsLasting | consensus/src/payload_manager.rs:137-143 | after one success every later read succeeds with the same data, whatever the network does |
| PayloadModel.ReadSucceedsExactly | consensus/src/payload_manager.rs:123-192 | in every run a read succeeds if and only if it or an earlier one had every batch asked for delivered; otherwise its error is that of the first missing batch |
| PayloadModel.NeverPanicsExactly | consensus/src/payload_manager.rs:135-136 | a run is free of panics if and only if it does not start with a read |
| StateComputer.DirectRegister | consensus/consensus-types/src/block.rs:346-389 | for a payload that carries its transactions the register handed to the executor has hints for each exactly when the payload has, keeps dependencies pointing backwards, and makes everything depend on the block metadata |
| StateComputer.QuorumStoreRegisterExactly | consensus/consensus-types/src/block.rs:359-381 | for a quorum store payload there are two gas estimates and two dependency lists, which match the transactions if and only if the block has none |
| StateComputer.RegisterExactly | consensus/consensus-types/src/block.rs:346-389 | the register position by position: metadata, transactions, checkpoint, their gas estimates, and dependencies moved one position on with the metadata added |
| StateComputer.KeepOnlySplit | consensus/consensus-types/src/executed_block.rs:107-126 | what is kept of a list of transactions is what is kept of its parts, in order |
| StateComputer.ToCommitExactly | consensus/consensus-types/src/executed_block.rs:107-126 | nothing is kept of a reconfiguration suffix, and of any other block the transactions with the status to keep |
| StateComputer.AllToCommitSnoc | consensus/src/state_computer.rs:148-171 | each further block reports what is kept of it after everything before |
| StateComputer.AllDigestsSplit | consensus/src/state_computer.rs:148-171 | the digests of the blocks follow one another in block order |
| StateComputer.ExecutionProxy.Compute | consensus/src/state_computer.rs:87-137 | succeeds exactly when the data is at hand or arrives and the executor accepts; the result is that of executing the block's register of exactly the transactions it stands for, and the data is then at hand for good |
| StateComputer.ExecutionProxy.ExecuteAll | consensus/src/experimental/execution_phase.rs:58-90 | a non-empty batch gets through exactly when every block's data is at hand or arrives and the executor accepts it, and then carries the results of executing exactly its transactions |
| StateComputer.ExecutionProxy.Gather | consensus/src/state_computer.rs:148-171 | for executed blocks the commit loop obtains the transactions that were executed, so with one status per transaction from the executor pairing them cannot panic, and accumulates in block order |
| StateComputer.ExecutionProxy.Commit | consensus/src/state_computer.rs:140-205 | succeeds exactly when every block's data is at hand or arrives; commits and reports exactly what execution kept, or nothing on an error; notifies the quorum store once, and not for an empty list |
| StateComputer.ExecutionProxy.ExecuteAndPersist | consensus/src/experimental/persisting_phase.rs:62-72 | a batch that got through execution is committed without error or panic, whatever the network answers in between |
| StateComputer.LatestTimeExact | consensus/src/state_computer.rs:169-170 | the notified time covers every committed block, and is the last block's exactly when that block has both the largest epoch and the largest round |
| StateComputer.LatestTimeIsLast | consensus/src/state_computer.rs:201-203 | it is the last block's when epochs agree and rounds increase |
| MetricsSafetyRulesModel.MetricsSafetyRules.PerformInitialize | consensus/src/metrics_safety_rules.rs:35-64 | terminates with storage that may answer differently at each attempt, and returns the first answer other than a waypoint that moved and is still behind, or the failure to read the state |
| MetricsSafetyRulesModel.MetricsSafetyRules.Retry | consensus/src/metrics_safety_rules.rs:66-80 | runs the action at most twice, the second time only after a successful initialisation following one of three errors |
| MetricsSafetyRulesModel.QueriesIncrease | consensus/src/metrics_safety_rules.rs:37-58 | the versions asked for strictly increase up to the ledger's latest, which bounds the attempts |
| MetricsSafetyRulesModel.CatchUpKeepsHistory | consensus/safety-rules/src/safety_rules.rs:227-258 | catching up never lowers the waypoint and keeps the voting history, unless a later epoch begins with an empty one |
| MetricsSafetyRulesModel.CatchUpReady | consensus/safety-rules/src/safety_rules.rs:260-292 | after success the safety rules hold a signer of the validator set of their safety data's epoch |
| MetricsSafetyRulesModel.CatchUpSucceedsExactly | consensus/src/metrics_safety_rules.rs:35-64 | catching up succeeds if and only if the deciding attempt gets a proof that leads to the safety rules' epoch or a later one, changes can be saved, and the validator belongs to it and has its key |
| MetricsSafetyRulesModel.CatchUpNotBehind | consensus/src/metrics_safety_rules.rs:48-60 | if storage always has a proof leading further, the result is never an out-of-date waypoint |
| MetricsSafetyRulesModel.RetriedVoteAnswered | consensus/src/metrics_safety_rules.rs:109-120 | a retried vote is never refused as uninitialised, and refused for its epoch exactly when the block is of another one |
| EpochManagerModel.EpochManager.ShutdownCurrentProcessor | consensus/src/epoch_manager.rs:510-549 | stops the components whose handles are held, only cutting off block retrieval, and drops all handles but the quorum store's message channel |
| EpochManagerModel.EpochManager.StartNewEpoch | consensus/src/epoch_manager.rs:748-775 | records the epoch, then starts a round manager with its helpers or a recovery manager |
| EpochManagerModel.EpochManager.InitiateNewEpoch | consensus/src/epoch_manager.rs:415-439 | an invalid proof changes nothing; a valid one shuts down before it starts |
| EpochManagerModel.EpochManager.ProcessDifferentEpoch | consensus/src/epoch_manager.rs:356-413 | asks for a proof of a later epoch; answers an earlier one only when not itself a validator |
| EpochManagerModel.EpochManager.ProcessMessage | consensus/src/epoch_manager.rs:777-823 | handles a message as the step function that `MessagesExactly` and `EpochEndsExactly` determine, errors included |
| EpochManagerModel.ShutDownClosesAll | consensus/src/epoch_manager.rs:510-549 | after shutdown every component has stopped, except that block retrieval, whose sender is dropped, may be at its last request |
| EpochManagerModel.EpochIsolation | consensus/src/epoch_manager.rs:777-944 | in every run an epoch begins with nothing running, components start only for the current epoch beside others of it, and each event handed over is of the current epoch, passed its validators' check under the quorum store flag in force, and goes to a running component of it |
| EpochManagerModel.SingleProcessor | consensus/src/epoch_manager.rs:551-746 | in every run exactly one round or recovery manager is running, and no component of another epoch |
| EpochManagerModel.RunningExactly | consensus/src/epoch_manager.rs:551-775 | in every run the components running are exactly those the last epoch notification calls for |
| EpochManagerModel.MessagesExactly | consensus/src/epoch_manager.rs:777-944 | in every run, by its notifications: a checked round event is handed to the one processor, a checked commit event to the buffer manager exactly if the epoch has one, an event of a later epoch asks its sender for the proof from here to there, one of an earlier epoch is answered with it by a non-validator, a retrieval request up to the own epoch is answered, and all else is an error without effect |
| EpochManagerModel.EpochEndsExactly | consensus/src/epoch_manager.rs:415-439 | in every run a proof that ends the epoch is accepted, everything is stopped before the notified epoch begins, and then exactly its components run |
| EpochManagerModel.QuorumStoreEventsExactly | consensus/src/epoch_manager.rs:921-930 | in every run, by its notifications: a checked quorum store event is handed to the current epoch's quorum store or refused without effect, and is refused exactly when the quorum store is off or the epoch was entered in recovery mode, the kept channel then being a closed one's |
| EpochManagerModel.ClosedQuorumStoreRefuses | crates/channel/src/aptos_channel.rs:92-99 | leaving an epoch that has a quorum store for one entered in recovery mode, the next quorum store event is an error |
| ModulePaging.GetModulesByPagination | api/src/context.rs:356-397 | a page fails exactly when one of the limit plus one entries it reads is flagged as code or does not decode; otherwise it lists the next unflagged modules and a rebuilt key of the one after |
| ModulePaging.ConstructedAccountPage | api/src/context.rs:369-384 | with keys as the constructors build them, whatever the limit, a page fails if and only if a module or a malformed key lies at or after the cursor, and otherwise is empty and the last |
| ModulePaging.OnePublishedModuleFails | types/src/access_path.rs:73-118 | one published module makes the first page fail |
| ModulePaging.CursorLeadsPast | api/src/context.rs:390-395 | the rebuilt key of an unflagged module resumes after that module |
| ModulePaging.PagingCompleteExactly | api/src/context.rs:356-397 | following the cursors always ends, and lists all modules if and only if no key is flagged or malformed and they fit on one page |
| ModulePaging.CollectedModules | api/src/context.rs:385-396 | on an unflagged account exactly the modules at positions limit, 2 limit + 1, 3 limit + 2 and so on are missing |
| Timestamps.RenderSequential | api/src/context.rs:539-568 | the loop that carries the timestamp along computes the fold the refinement is about, failing on the first failed conversion |
| Timestamps.RenderNonSequential | api/src/context.rs:570-595 | the same for one lookup per transaction |
| Timestamps.LookupsExactly | api/src/context.rs:570-595 | every transaction is shown, in order, with the block time looked up for its version, and rendering fails exactly if one lookup or conversion does |
| Timestamps.GetTransactions | api/src/context.rs:597-638 | succeeds exactly when the database answers from the requested version with matching sizes and every version's accumulator root can be read, and then numbers transactions contiguously with their roots |
| Timestamps.LookupIsLatestBlock | storage/aptosdb/src/lib.rs:1494-1502 | the lookup yields the time of the latest block metadata at or before the version, and fails exactly when the version is pruned or that block's event deleted |
| Timestamps.SequentialRefinesLookup | api/src/context.rs:539-595 | on contiguous transactions, starting from the first one's block timestamp, both renderings give the same result, failures included |
| GasEstimation.ObservedMedian | api/src/context.rs:844-861 | computes the middle price, or the saturating average of the middle two, and zero without prices |
| GasEstimation.MedianExact | api/src/context.rs:848-860 | at least half the prices are at most, and at least half are at least, the result if and only if the list is odd or its lower middle price is at most half the largest 64-bit number |
| GasEstimation.MedianAverages | api/src/context.rs:844-861 | without prices the median is zero, of an odd number the middle one, of an even number the average of the middle two rounded down as long as their sum fits 64 bits, and half the largest number otherwise |
| GasEstimation.MedianSaturates | api/src/context.rs:857-857 | two equal prices above that bound are underestimated |
| GasEstimation.BucketIndex | api/src/context.rs:875-889 | the ascending search always selects the first bucket |
| GasEstimation.ClampExactly | api/src/context.rs:863-867 | a median within the bounds stays as it is, one outside moves to the nearer bound |
| GasEstimation.GasEstimator.GetGasSchedule | api/src/context.rs:916-988 | answers with the schedule of the requested epoch exactly if it is cached or can be read; a failed read changes nothing |
| GasEstimation.GasEstimator.EstimateGasPrice | api/src/context.rs:789-914 | an estimate is returned exactly when the schedule can be had and the cached estimate is of the epoch, newer than the oldest version and fewer than 100,000 versions old, or prices can be read; it is the cached one in the first case and recomputed otherwise, and its median the clamped median of its prices |

## Left out

- Signature values, key material and aggregation errors: signatures are symbolic and aggregation of verified signatures succeeds.
- 16-, 64- and 128-bit wrap-around of dependency positions, epochs, rounds and powers: numbers are unbounded, except the round increment, the block timestamp bound and the gas arithmetic, whose limits are modelled.
- Obligations of the callers of the safety rules in `Network`: a timeout certificate handed over with a vote is of the block's epoch, a commit vote repeats an ordered ledger info of the current epoch, block ids are genuine hashes, and an epoch change proof names the epoch's real validators. The safety rules themselves do not check these.
- Waypoint and epoch change proof verification: a proof is its last ledger info and a flag that its signatures chain up.
- The set of Byzantine validators is fixed during a run.
- Replication.LedgersNeverDiverge: execution is a given function of block ids, so that a ledger info ending an epoch commits a block at or after one that reconfigures is an assumption; the root hash a new epoch starts from is not modelled.
- Resumption.NodeRunKeepsInv: one epoch; blocks and certificates that reach the database are assumed to have passed verification, and leftovers of earlier epochs to have been deleted at its start.
- CommitSafety.CertificateUniqueness: ledger infos are equal only outside commit votes, because a commit vote adds the execution result to the ordered ledger info and shares its vote data.
- Execution, timeouts' durations, proposal generation and leader election; `Progress` shows that a good round succeeds, not that one comes.
- The block tree's children links and pruning window; the tree is any parent-linked map, and pruning any deletion that keeps the new root's descendants.
- Signing proposals, and the cache in front of the persisted safety data.
- The round manager's handling of several epochs, block retrieval and reconfiguration-error injection.
- Recovery.FindRoot: sorting is specified as a permutation in order; that equal keys keep their order is not stated.
- The deletion of pruned blocks from the database after recovery.
- Internals of the quorum store's batch reader; it is assumed to hand out only data that hashes to the digest asked for.
- PayloadModel.NeverPanicsExactly: concurrent reads of one block's cell, which the source excludes by assumption, are not modelled.
- Coupled execution computes a block before its prefetch; the payload theorems start at the prefetch.
- The executor is a function from a block and its register to a result with one status each, or none after a reconfiguration.
- EpochManagerModel.EpochIsolation: block retrieval requests and local timeouts, which carry no epoch, are not in the model, nor is what a recovery manager does; a quorum store's network listener drops its receiver right after it acknowledges the shutdown, and both are one step here.
- Metrics, logging, fail points and message formats.
- Paging of resources and resource groups, block listing, account transactions and the remaining REST endpoints.
- GasEstimation.GasEstimator.EstimateGasPrice: the two critical sections of a call run without another call in between; the second check of the cache covers that case in the source.
- An order between the deprioritised, median and prioritised prices: the code does not give one.
