# Pocket: a Dafny model

Pocket is a proof-of-stake node written in Go. This project models the parts of it where correctness
depends on more than one function and proves what they are meant to guarantee.

- **Consensus** (`ConsensusTypes`, `ConsensusSpec`, `ConsensusModule`, `ConsensusRuns`, `ConsensusCerts`,
  `ConsensusCommits`, `ConsensusLaws`, `ConsensusExamples`, `Agreement`, `AgreementExamples`, `FloatQuorum`, `LeaderElection`): the
  HotStuff view machine with its pacemaker. One node is a state machine over arbitrary incoming messages and
  timeouts; a network is any interleaving of such nodes, with anything else sending what it likes. Transitions
  are functions in `ConsensusSpec`; the class in `ConsensusModule` assigns fields and runs the loops of the source
  and is proved to take exactly those transitions. Results are about every run. Signatures are ideal values that
  name their signer and payload.
- **RainTree** (`RainTree`, `RainTreeSizes`, `RainTreeNetwork`, `RainTreeCoverage`, `Ternary`, `TernaryDigits`,
  `TernaryHits`, `Float64`): the recursive broadcast over rotated peer lists, with messages handled in any
  order and with level sizes computed in double precision. Coverage is decided for arbitrary targets by
  reading the reached positions as a polynomial over the field of three elements.
- **Peers** (`AddressOrder`, `PeersView`, `PeerManager`): the sorted, rotated peer list kept up to date by
  binary searches and insertions, and its synchronisation at a new height.
- **Deduplication** (`FifoSet`, `NonceDedup`): the bounded FIFO set and the nonce check, with check and
  insert interleaved across goroutines.
- **Block execution** (`Ledger`, `UowSpec`, `UowModule`, `UowBlocks`, `UowLaws`, `UowPools`, `TxMempool`): the unit
  of work that a leader fills from the transaction pool and a replica replays, and the pool with its counters.
- **Key spaces and proofs** (`HostKeys`, `Ics23`, `KvStore`, `TxIndex`): ICS-24 store keys, the conversion
  of sparse Merkle proofs to ICS-23, prefix scans and the transaction index.

What the proofs showed about the code beside the properties themselves:

- The round counter is a uint64 and wraps when a round is interrupted at its largest value, by a timeout or
  inside the handling of a message; a message's step is cut to a byte. Views never go back exactly when no
  step does the first or, above 255, meets a failed election (`StepLaterIff`, `ViewsNeverDecreaseIff`). One
  NewRound message of the last round makes a node vote twice in one view (`TwoVotesInOneStep`) and commit
  against its vote (`CommitAgainstVote`).
- Within a height a new round is announced with the prepare certificate held before the step, with one
  exception: a leader that collects Prepare votes without holding a block announces it with the certificate,
  over no block, that it has just built (`RunAnnouncesRounds`).
- A leader may certify two different state hashes at one height in two rounds, so agreement needs the bound
  on leaders (`LeaderOfTwoRoundsCertifiesTwo`).
- A certificate's height and block are compared with nothing when a node commits. With one faulty validator
  of four, two correct nodes commit different state hashes at one height, under one certificate
  (`ForeignCertificateSplitsCommits`) or with one of an earlier height (`OldCertificateSplitsCommits`). Beside a
  commit that its certificate is for, one under a certificate of that height agrees exactly when its
  certificate is for it too (`CommitsAgreeIff`). A locked node can vote for a block that its lock is not for
  (`LockBindsVoteIff`, `LockedVoteForAnother`).
- A certificate may list one signature several times and each is counted, so agreement also needs distinct
  signers (`RepeatedSignatureSplitsCommits`).
- A leader that a Propose message brings into its round counts the signature in it unchecked
  (`LeaderCommitsOnSmuggledVote`), and it counts a vote for another block with its state hash, which spoils its
  certificate (`LeaderCertificateIsAcceptedIff`, `SpoiledCertificate`).
- RainTree coverage ends at 3^5 = 243 peers. The coefficient (2/3)^5 is rounded so far down that, from 3^6
  peers on, the sixth level from the top is computed one peer short, and some peer never receives the
  message, in any order of delivery (`CodeCoversIff`, `CodeMissesSome`). With exact thirds every 3^k is
  covered (`ThirdsAreGood`). Independently, the logarithm is rounded to seven decimals, so 3^l + 1 peers get
  one level too few from l = 16 on (`OneLevelShort`).
- Leaders rotate fairly until the int64 sum of height, round and step wraps: from round 2^63 on a
  round can elect nobody (`FairIff`, `UnfairFrom2To63`).
- The float64 quorum test is exact for every validator count up to 2^53, not only far below it.
- A send to oneself destroys the amount: the recipient is credited and then overwritten. Value is conserved
  exactly when no such send succeeds (`ConservesIff`, `BlockTotal`).
- Edit-stake messages have no signer candidates and are always rejected before their handler runs, so the
  stake of an actor never changes (`BlockKeepsStakes`).
- Stakes of every actor type go to the pool of applications, while payouts leave the pool of the actor's type,
  so the pools of the other types receive nothing and are below zero once they have paid more than they held
  (`BlockPools`, `ChainPools`, `ServicerPoolOverdrawn`).
- An actor that stays paused beyond its limit is given a new unstaking height at every block, so it is paid
  out while paused exactly when the unstaking period is one block (`OverdueIsPostponed`).
- A transaction with the hash or the place of an earlier one hides it; nothing is lost in the index exactly
  when no two share either (`AllFoundIff`).
- `Remove` on the peers view with an unknown address removes a neighbour unless the address would come last;
  `Add` with a known address breaks the view. The exact conditions are in the contracts.
- A transaction pool that overflows tells its byte counter of the pushed transaction instead of the evicted
  one; the counter stays right exactly when their lengths agree (`AddTx`).
- A descending prefix scan misses everything when the end of the range is itself a stored key, and for a
  prefix of 255 bytes when longer keys exist (`GetAll`); the transaction index never stores such keys.

`dafny verify dfyconfig.toml` checks the whole project.

## Model

| member | source | states |
|---|---|---|
| Agreement.CertificatesAgree | consensus/hotstuff_replica.go:263-311 | In every run of a network, two certificates of one height, of any rounds and steps, that pass validation with distinct signers certify the same state hash, provided at most a third of the validators are faulty or have led that height |
| ConsensusExamples.LeaderOfTwoRoundsCertifiesTwo | consensus/hotstuff_leader.go:66-83 | A run in which a leader of two rounds obtains valid certificates for any two state hashes: the bound on leaders cannot be dropped |
| Agreement.BoundValidatorAgrees | consensus/block.go:61-64 | A validator that did not lead a height stands for one state hash only at that height, with all its votes and its commit, in every run |
| Agreement.QuorumsOverlap | consensus/helpers.go:128-134 | Two sets over the threshold share more than a third of the validators |
| Agreement.SignerCount | consensus/hotstuff_replica.go:285-311 | With distinct signers the number of counted signatures is the number of validators that signed |
| Agreement.NetRunIsSafe | consensus/hotstuff_handler.go:16-48 | Every node of every network run keeps the invariant on votes, units of work and commits |
| Agreement.CommitsAgreeIff | consensus/hotstuff_replica.go:139-169 | For commits of one height by any two nodes of any network run, as leader or replica, with at most a third of the validators faulty or leading: beside a commit that its certificate is for, one under a certificate of that height is of the same state hash if and only if its certificate is for it too |
| Agreement.CommitQuorum | consensus/hotstuff_replica.go:263-311 | Behind the certificate of every commit, if it is of the commit's height, stands a quorum of validators that voted for the certificate's state hash or committed it; that the certificate passed validation or was built from checked votes is derived from the run |
| Agreement.QuorumsAgree | consensus/helpers.go:128-134 | Two quorums whose correct members voted for a state hash at one height, or committed it, stand for the same one |
| Agreement.NetRunIsRun | consensus/hotstuff_handler.go:16-48 | Each node of a network run goes through the run of the events delivered to it |
| ConsensusCommits.CommitsAreCertified | consensus/block.go:11-35 | In every run each commit carries a certificate that passed validation with the validators of its height, or that the node built as leader for its own block and view from enough signatures, each a validator's for that height and state hash, except that the first may have come unchecked in a Propose message |
| AgreementExamples.ForeignCertificateSplitsCommits | consensus/hotstuff_replica.go:139-169 | Four validators, one faulty: two correct nodes commit any two state hashes at height 0 under one genuine certificate of the first |
| AgreementExamples.OldCertificateSplitsCommits | consensus/hotstuff_replica.go:139-169 | The same at height 1, where one node commits under a genuine certificate of height 0 for its own state hash |
| AgreementExamples.RepeatedSignatureSplitsCommits | consensus/hotstuff_replica.go:285-311 | The same under a certificate that lists the faulty validator's signature three times |
| AgreementExamples.LeaderCommitsOnSmuggledVote | consensus/hotstuff_leader.go:318-335 | A run in which a leader commits its block under a certificate of three signers that no replica accepts, since one signature came in a Propose message |
| ConsensusExamples.CommitUnderForeignCertificate | consensus/hotstuff_replica.go:139-169 | For any two state hashes, a run in which a node commits the one under a valid certificate of the other |
| ConsensusRuns.ViewsNeverDecreaseIff | consensus/pacemaker/module.go:102-170 | In a run (height, round, step) of a live node never decreases, catch-up jumps included, and its leader is fixed within a round, if and only if no step interrupts the last round or meets a failed election at a step above 255 |
| ConsensusRuns.AtMostOneVotePerStep | consensus/hotstuff_replica.go:62-134 | In every run that never interrupts the last round a node casts at most one vote per height, round and step, as leader or replica |
| ConsensusCommits.RepeatedVotesAreSeparated | consensus/pacemaker/module.go:246-287 | In every run, between two votes of one height, round and step the node has sent a NewRound message |
| ConsensusExamples.TwoVotesInOneStep | consensus/pacemaker/module.go:194-224 | A run of three messages, one of them interrupting the last round, in which a node votes for any two state hashes in one view |
| ConsensusExamples.StepAbove255GoesBack | consensus/pacemaker/module.go:140-170 | A run in which a message of step 259 takes a node from Commit back to step 3 |
| ConsensusRuns.OneStateHashPerHeight | consensus/block.go:39-74 | In every run a node that did not lead a height votes for a single state hash at that height, in all rounds |
| ConsensusCommits.CommitsStickToVotes | consensus/block.go:39-74 | In every run a node that did not lead a height has voted there for nothing else than the state hash it committed |
| ConsensusRuns.CommitsAreConsecutive | consensus/block.go:11-35 | In every run commits happen once per height at consecutive heights, and a held unit of work was opened at the current height |
| ConsensusCommits.CommitMatchesVote | consensus/hotstuff_replica.go:148-168 | In every run, a commit of the height and round of a Prepare vote is of a unit of work that computed the state hash voted for, if the next NewRound message after the vote is the one that opens the next height |
| ConsensusRuns.QuietCommitMatchesVote | consensus/hotstuff_replica.go:148-168 | In a run that never interrupts the last round this holds of every Prepare vote of the commit's height and round |
| ConsensusExamples.CommitAgainstVote | consensus/pacemaker/module.go:194-224 | A run of six messages, one of them interrupting the last round, in which a node commits one state hash in a round in which it voted Prepare for any other |
| ConsensusRuns.StepLaterIff | consensus/pacemaker/module.go:102-224 | One step, message or timeout, from any state leads to a later view if and only if it does not wrap the round and does not stumble over a step above 255 |
| ConsensusRuns.RunKeepsInv | consensus/hotstuff_handler.go:16-48 | The inductive invariant holds after every run |
| ConsensusRuns.StepKeepsInv | consensus/hotstuff_handler.go:16-53 | One message or timeout keeps the invariant |
| ConsensusRuns.StepExtends | consensus/hotstuff_handler.go:16-53 | One message or timeout takes back nothing that was sent or committed and commits at most once |
| ConsensusRuns.ReplicaKeepsInv | consensus/hotstuff_replica.go:27-169 | Every replica handler, entered at the step of its message, keeps the invariant |
| ConsensusRuns.LeaderKeepsInv | consensus/hotstuff_leader.go:29-301 | Every leader handler, entered at the step of its message, keeps the invariant |
| ConsensusRuns.UnknownStepKeepsInv | consensus/hotstuff_handler.go:33-48 | A message with a step that has no handler keeps the invariant |
| ConsensusRuns.ReplicaPrepareKeepsInv | consensus/hotstuff_replica.go:47-77 | The replica's Prepare handler keeps the invariant: a vote is cast only for the executed block and a new step |
| ConsensusRuns.LeaderNewRoundKeepsInv | consensus/hotstuff_leader.go:29-104 | The leader's NewRound handler keeps the invariant |
| ConsensusRuns.LeaderAdvanceKeepsInv | consensus/hotstuff_leader.go:107-269 | Advancing with a quorum certificate, and committing with one, keeps the invariant |
| ConsensusRuns.CommitKeepsInv | consensus/block.go:11-35 | Committing a block keeps the invariant |
| ConsensusRuns.InterruptKeepsInv | consensus/pacemaker/module.go:194-224 | Interrupting a round keeps the invariant |
| ConsensusCerts.LeaderCertificateIsAcceptedIff | consensus/helpers.go:39-83 | In every run the certificate that a leader builds on a delivered message and proposes passes the replicas' validation if and only if the messages counted for its own block reach the threshold |
| ConsensusExamples.SpoiledCertificate | consensus/hotstuff_leader.go:107-155 | A run in which a vote for another block with the same state hash makes the leader hold a certificate that does not pass validation |
| ConsensusCerts.RunKeepsPool | consensus/hotstuff_leader.go:283-301 | In every run every pooled message carries a signature that verifies |
| ConsensusCerts.StepTakesCerts | consensus/hotstuff_replica.go:93-130 | Within a height a prepare certificate comes only from a valid PreCommit proposal or from Prepare votes, a lock only from a valid Commit proposal or from PreCommit votes |
| ConsensusCerts.LockBindsVoteIff | consensus/hotstuff_replica.go:196-235 | In any step a locked replica sends a Prepare vote only on a proposal justified by a valid certificate of the locked block, and the vote is for the locked state hash if and only if the proposal and its justification name the same one |
| ConsensusExamples.LockedVoteForAnother | consensus/hotstuff_replica.go:196-235 | A run in which a locked node votes for a state hash that its lock is not for |
| ConsensusModule.Consensus.ValidateQuorumCertificate | consensus/hotstuff_replica.go:263-311 | The counting loop accepts exactly the certificates with a block and enough verifying signatures |
| ConsensusModule.Consensus.GetQuorumCertificate | consensus/helpers.go:39-83 | The draining loop empties the pool of the step and returns the certificate over its usable signatures, if they reach the threshold |
| ConsensusModule.Consensus.FindHighQC | consensus/helpers.go:85-96 | The loop returns the first certificate of greatest height, and none exactly when no message carries one |
| ConsensusModule.Consensus.HandleMessage | consensus/hotstuff_handler.go:16-48 | A message takes the object through exactly one step of the state machine, keeps its invariant, adds to what was sent and committed at consecutive heights, and goes back in view exactly when the step wraps or stumbles; everything it adds is a proper vote, proposal or announcement, and a round that it ends is announced as `RoundEndIsAnnounced` says |
| ConsensusModule.Consensus.HandleTimeout | consensus/pacemaker/module.go:194-224 | A timeout keeps the invariant, commits nothing, keeps block and certificates, drops leader, unit of work and pools, moves to the next round, which is 0 exactly after the last one, and sends one message: NewRound of that round, with the prepare certificate held before |
| ConsensusModule.Consensus.constructor | consensus/module.go:92-140 | A new node satisfies the invariant at its starting height |
| ConsensusLaws.RunAnnouncesRounds | consensus/pacemaker/module.go:194-287 | In every run a step that opens a height sends, last, one NewRound message without a certificate; one that ends a round within a height sends, last, one with the prepare certificate held before the step, or, if a leader without a block collected Prepare votes, with the one just built; any other step sends none |
| ConsensusLaws.RoundEndIsAnnounced | consensus/pacemaker/module.go:194-287 | The same for one step from any state, with the view it opens: the next round or round 0 of the next height, without leader, unit of work and pooled messages, and at a new height without block and certificates |
| ConsensusLaws.StepIsSpoken | consensus/messages.go:11-77 | In any step, whatever is told, every new message is a vote for the node's block in its view under its own signature, a proposal of the leader's block with the certificate of the step before, a decision with the certificate it commits under, or a NewRound message |
| ConsensusLaws.RunSignsItsVotes | consensus/messages.go:47-96 | In every run every vote is for a block and is signed by the node over its own height, step, round and block |
| ConsensusLaws.UnwantedIsIgnored | consensus/pacemaker/module.go:102-138 | A message of another height or an earlier view, and a proposal that reaches a leader, change nothing |
| ConsensusLaws.HandledUnderElected | consensus/helpers.go:221-254 | Any other message is handled in its own view, under the leader kept or the one that its view elects, unless that election fails |
| ConsensusLaws.ReplicaVotesIff | consensus/hotstuff_replica.go:47-136 | A replica votes if and only if the block fits, the certificate is valid, a lock is respected and execution reproduces the state hash; it then takes up block, prepare certificate or lock, and nothing else of these, and moves one step on |
| ConsensusLaws.ReplicaCommitsIff | consensus/hotstuff_replica.go:139-169 | A replica commits exactly on a fitting, certified Decide message with a block and a unit of work, and then its own block with that certificate |
| ConsensusLaws.ReplicaDiesIff | consensus/hotstuff_replica.go:196-260 | The exact messages that kill a live replica: an unknown step, a proposal without a certificate to a locked node, a block that executes to another definite state hash, a Decide without a block |
| ConsensusLaws.ReplicaOpensIff | consensus/hotstuff_replica.go:27-44 | A NewRound message opens Prepare with a fresh unit of work exactly when it has no block |
| ConsensusLaws.LeaderStoresIff | consensus/hotstuff_leader.go:283-382 | The leader pools a message, behind those of its step, exactly when it fits and is a proposal or carries a validator's signature over itself, and changes nothing else |
| ConsensusLaws.LeaderOpensRound | consensus/hotstuff_leader.go:29-104 | With enough NewRound messages the leader proposes, with the first certificate of greatest height among them, the block of that certificate if it is not of an earlier height or round and executes, or else a new block over it, and votes for it; or it ends the round, or dies exactly when execution gives another definite hash |
| ConsensusLaws.LeaderAdvances | consensus/hotstuff_leader.go:107-269 | With enough usable signatures of a step the leader proposes the next step with the certificate over them, takes it as prepare certificate or lock, or commits its block under it; without them it says nothing |
| FloatQuorum.FloatThresholdIsExact | consensus/helpers.go:128-134 | The float64 comparison, every operand and product rounded to nearest even, equals 3 * num > 2 * n for every num and every n up to 2^53 |
| Float64.TwoThirdsIsNearest | consensus/helpers.go:30 | The constant is the 53-bit fraction nearest to two thirds |
| Float64.ProductAtMultipleOfThree | consensus/helpers.go:130 | For n a multiple of three the rounded product is two thirds of n exactly, ties included |
| Float64.ProductBetween | consensus/helpers.go:130 | For other n the rounded product stays between the two integers around two thirds of n |
| Float64.RoundsToNearest | consensus/helpers.go:130 | The rounding used is to nearest with ties to even |
| LeaderElection.FairIff | consensus/leader_election/module.go:48-65 | n consecutive rounds at one height and step elect each id 1..n exactly once, if and only if no int64 sum of those rounds wraps to a negative number that n does not divide |
| LeaderElection.EachLeadsOnce | consensus/leader_election/module.go:61-64 | Without such a wrap each id leads in exactly the round that WaitFor computes |
| LeaderElection.FairWithoutOverflow | consensus/leader_election/module.go:61-64 | Every window of rounds that stays below 2^63 is fair |
| LeaderElection.UnfairFrom2To63 | consensus/leader_election/module.go:61-64 | A window of two rounds from 2^63 on that is not fair: one of them elects nobody |
| LeaderElection.ElectedIdInRangeIff | consensus/leader_election/module.go:61-64 | The elected id names a validator exactly when the int64 sum is not negative or n divides it |
| LeaderElection.SameLeaderIff | consensus/leader_election/module.go:61-64 | Two messages of any heights, rounds and steps elect the same id exactly when n divides the distance of their int64 sums and the sums have the same sign, or n divides both |
| LeaderElection.ActorMapper.constructor | consensus/types/actor_mapper.go:15-37 | For distinct addresses, ids 1..n and validators are in bijection through both maps, in address order, and the third map finds each validator |
| LeaderElection.ActorMapper.EachValidatorLeadsOnce | consensus/types/actor_mapper.go:15-37 | Of n consecutive rounds without a wrap each validator, found through its id, leads exactly one |
| RainTreeCoverage.CodeCoversIff | p2p/raintree/router.go:97-142 | Among 3^k peers, with the targets that float64 arithmetic gives, for every origin and every order of delivery, every other peer receives the message exactly once if and only if k is at most 5 |
| RainTreeCoverage.CodeMissesSome | p2p/raintree/peerstore_utils.go:29-31 | From 3^6 peers on, for every origin and every order of delivery, some other peer never receives the message |
| RainTreeCoverage.Targets729 | p2p/raintree/peerstore_utils.go:29-55 | Of 729 peers the lowest of the six levels walks 95 and sends to 31 and 63, in place of 96, 32 and 64 |
| RainTreeNetwork.BroadcastCoversIff | p2p/raintree/router.go:104-142 | For arbitrary targets, among 3^k peers, for every origin and every order of delivery, every other peer receives exactly one message if and only if each level has two targets with as many factors of three, whose sum has more, and the levels have 0 to k - 1 such factors, each once |
| RainTreeNetwork.GoodBroadcast | p2p/raintree/router.go:104-142 | With such targets exactly 3^k - 1 messages are sent in every order, and at no moment has a peer received two or the origin one |
| RainTreeNetwork.BroadcastEnds | p2p/raintree/router.go:202-245 | For arbitrary targets and any number of peers, a broadcast over l levels ends after at most 3^l - 1 messages, and in the end each peer has received the same number whatever the order |
| RainTreeNetwork.PendingBound | p2p/raintree/router.go:104-142 | A broadcast from a level causes at most 3^level - 1 messages in the network |
| RainTreeNetwork.PlayConserves | p2p/raintree/router.go:202-245 | Messages received plus messages still due never change, whatever the order of delivery |
| RainTreeNetwork.DueAndHits | p2p/raintree/peerstore_utils.go:34-82 | What a position is due is at most the number of ways to reach it over the levels, and exactly that when no target is the node itself |
| TernaryHits.OneHitEachIff | p2p/raintree/peerstore_utils.go:34-51 | Sums of one choice per level hit every residue modulo 3^k once if and only if the targets are good, from every start |
| TernaryHits.MomentOfHits | p2p/raintree/peerstore_utils.go:34-51 | The hits on all positions, read as coefficients of a polynomial over three elements, are the product of one factor per level |
| TernaryDigits.FullGainIsGood | p2p/raintree/peerstore_utils.go:34-51 | If the lowest powers of the k factors add up to 3^k - 1, the targets are good |
| TernaryDigits.GoodIsFullGain | p2p/raintree/peerstore_utils.go:34-51 | Good targets make the lowest powers add up to 3^k - 1 |
| RainTreeCoverage.ThirdsAreGood | p2p/raintree/peerstore_utils.go:10-12 | Exact thirds of exact sizes are good targets for every k, so the design covers every 3^k |
| RainTreeCoverage.ComputedTargetsGoodIff | p2p/raintree/peerstore_utils.go:29-55 | The computed targets of 3^k peers are good if and only if k is at most 5 |
| RainTreeCoverage.BroadcastIsBounded | p2p/raintree/router.go:226-231 | For every number of peers, origin and order of delivery, a broadcast ends after fewer than 3n messages |
| RainTreeCoverage.ShortLevelsMissSome | p2p/raintree/peers_manager.go:89-104 | Where the number of levels is too small for the number of peers, every broadcast misses a peer |
| RainTreeCoverage.LevelsSufficeIff | p2p/raintree/peers_manager.go:89-104 | The number of levels suffices for n peers if and only if no power of three below n lies within the rounding of its logarithm |
| RainTreeCoverage.OneLevelShort | p2p/raintree/peers_manager.go:98-104 | For every l from 16 on, 3^l + 1 peers get l levels |
| RainTreeCoverage.LevelsOfPower | p2p/raintree/peers_manager.go:89-92 | 3^k peers get k levels |
| RainTree.MaxLevels | p2p/raintree/peers_manager.go:89-104 | One level fewer would not reach the number of peers |
| RainTreeSizes.TargetsInView | p2p/raintree/peerstore_utils.go:17-71 | For every number of peers and every level the computed size is at most that number and both computed targets are indices into the peer list |
| RainTreeSizes.TargetsAreThirds | p2p/raintree/peerstore_utils.go:53-55 | The rounded products with a third and two thirds truncate to the exact thirds of the size |
| RainTreeSizes.SizeIsExact | p2p/raintree/peerstore_utils.go:29-31 | Up to four levels below the top of 3^k peers the computed size is exact |
| RainTreeSizes.SizeIsShort | p2p/raintree/peerstore_utils.go:29-31 | Five levels below the top it is one short |
| RainTreeSizes.Coefficients | p2p/raintree/peerstore_utils.go:29-29 | The doubles that repeated squaring gives for the first six powers of two thirds |
| RainTree.Router.BroadcastAtLevel | p2p/raintree/router.go:104-142 | A node that sees only its own list sends, over the recursion, what the specification says of its ring position |
| RainTree.Router.SendToTargets | p2p/raintree/router.go:113-130 | The loop sends to both computed targets of the level, skipping itself |
| PeersView.SortedPeersView.constructor | p2p/types/peers_view.go:29-112 | Building from a store, in any map order, gives the view: ring order from self, peers index by index |
| PeersView.SortedPeersView.Add | p2p/types/peers_view.go:63-70 | Inserting yields the view of the extended store exactly when the address was absent |
| PeersView.SortedPeersView.Remove | p2p/types/peers_view.go:73-86 | Removing yields the view of the smaller store exactly for a known address other than the first of the list, which is the node itself when the store holds it, or an unknown one that would come last |
| PeersView.SortedPeersView.GetAddrIndex | p2p/types/peers_view.go:129-149 | The two binary searches find the place in ring order; self is sent past the end |
| PeersView.SortedPeersView.SortAddrs | p2p/types/peers_view.go:114-127 | Sorting and rotating gives ring order of the same addresses |
| PeersView.ViewUnique | p2p/types/peers_view.go:29-35 | A store has one view, so the incremental list equals the rebuilt one |
| PeersView.InsertWithoutSelf | p2p/types/peers_view.go:63-70 | When self is not in the store, the exact condition under which an insertion still gives the view |
| PeersView.InsertElementAtIndex | p2p/types/peers_view.go:37-42 | The element stands at its index and the rest keeps its order |
| PeersView.RemoveElementAtIndex | p2p/types/peers_view.go:44-49 | Putting the removed element back at its index gives the list that was there |
| AddressOrder.SearchStrings | p2p/types/peers_view.go:119-119 | Binary search splits a sorted list into smaller and other addresses |
| PeerManager.Delta | p2p/types/peer.go:17-39 | Added are the peers only the new list has, removed those only the old one has, each once |
| PeerManager.SortedPeerManager.AddPeer | p2p/raintree/router.go:260-279 | Store and view stay in step for every peer, known or not |
| PeerManager.SortedPeerManager.HandleAdd | p2p/types/peer_manager.go:77-105 | An add event keeps store and view in step if and only if the address was unknown; for a known one the view then lists it twice |
| PeerManager.SortedPeerManager.RemovePeer | p2p/raintree/router.go:281-290 | A remove event keeps store and view in step if and only if the address is known and not the node itself, or unknown and would come last |
| PeerManager.SortedPeerManager.HandleNewHeight | p2p/event_handler.go:33-49 | After a new height the store holds exactly the staked addresses, known peers keep their entry, and view and levels match the store |
| PeerManager.SyncedStore | p2p/event_handler.go:33-49 | Adding then removing the delta turns one address set into the other |
| PeerManager.ViewIsRotation | p2p/types/peers_view.go:88-127 | A node's view is the sorted ring read from its own position, which is what a broadcast walks |
| FifoSet.GenericFifoSet.Push | shared/mempool/generic_fifo_set.go:43-66 | A new index is appended and the front dropped when over capacity; a known one is refused; the set stays the queue's indices without duplicates |
| FifoSet.GenericFifoSet.Pop | shared/mempool/generic_fifo_set.go:68-82 | Takes the front, or fails exactly on the empty queue |
| FifoSet.GenericFifoSet.Remove | shared/mempool/generic_fifo_set.go:84-99 | The item of that index is gone, order kept, set and queue in step |
| FifoSet.GenericFifoSet.Get | shared/mempool/generic_fifo_set.go:113-124 | Finds the item of an index exactly when there is one |
| NonceDedup.DeduperIsSlidingWindow | p2p/module.go:492-537 | Under every interleaving of checks and inserts the deduper holds exactly the last accepted nonces up to its capacity, and between two acceptances of a nonce lie at least that many others |
| NonceDedup.NoDuplicateWithinWindow | p2p/module.go:498-505 | No step passes on a nonce that is still in the window |
| NonceDedup.Handler.ObserveAndPublish | p2p/module.go:503-521 | A nonce is published exactly when it is not in the window; it then ends both what was published and the window, which forgets only its oldest beyond the capacity; this is the insert step of the interleaved machine |
| NonceDedup.Handler.HandlePocketEnvelope | p2p/module.go:492-516 | One envelope handled without interruption is published exactly when its nonce is not in the window, and then recorded |
| NonceDedup.InsertAcceptsIff | p2p/module.go:518-524 | In every run an insert passes its nonce on if and only if it is not among the last accepted ones, appended to them, and frees its goroutine either way |
| NonceDedup.CheckPassesIff | p2p/module.go:526-537 | In every run a check lets a goroutine go on with its nonce if and only if that is not among the last accepted ones |
| NonceDedup.EnvelopePassedOnIff | p2p/module.go:492-516 | After every run an envelope handled without interruption is passed on if and only if its nonce is not among the last accepted ones |
| UowBlocks.ReplicaReachesLeaderState | utility/unit_of_work/uow_leader.go:32-66 | A replica that starts from the leader's state accepts the proposal and ends in the leader's ledger, actors, parameters and indexed transactions, for every pool content and every order of maps and rows on either side |
| UowBlocks.ReplayOfReap | utility/unit_of_work/module.go:141-178 | Replaying what was reaped from admitted transactions never fails and gives the leader's state, indices included |
| UowBlocks.EndBlockOrder | utility/unit_of_work/block.go:102-181 | The end of a block does not depend on the order of actor types or of rows |
| UowBlocks.UnbondOrder | utility/unit_of_work/block.go:102-156 | Payouts give the same balances in every order |
| UowBlocks.BeginUnstakingOrder | utility/unit_of_work/block.go:158-181 | The pause loop gives the same state, or the same failure, in every order of actor types |
| UowBlocks.RowsAreListed | utility/unit_of_work/block.go:102-133 | The four queries together list every ready actor once, whatever the order |
| UowBlocks.BlockTotal | utility/unit_of_work/module.go:51-103 | Over a whole block, whatever the rounding of the proposer's cut, the sum of all balances changes by what successful sends to oneself burn and by nothing else |
| UowBlocks.NoSelfSendBurnsNothing | utility/unit_of_work/tx_message_handler.go:34-61 | A proposal without sends to oneself burns nothing |
| UowBlocks.ConservesIff | utility/unit_of_work/transaction.go:89-115 | A transaction keeps the total exactly when it is not a successful non-zero send to oneself |
| UowLaws.AcceptedIff | utility/unit_of_work/transaction.go:27-115 | A transaction is accepted if and only if its signer is the payer, the staker or output account, the actor or its output account, or the owner of the parameter, and holds the price set for its message |
| UowLaws.AcceptedEffect | utility/unit_of_work/tx_message_handler.go:34-221 | Holder by holder, actor by actor and parameter by parameter, what every accepted transaction does, whether its message succeeds and exactly when: the fee leaves the signer for the collector, a send lowers the payer and raises the payee, one to oneself only lowers, a stake goes to the stake pool, and all else stays |
| UowLaws.EditStakeEffect | utility/unit_of_work/tx_message_handler.go:120-174 | The same for a change of stake, were it accepted |
| UowBlocks.SelfSendBurns | utility/unit_of_work/tx_message_handler.go:52-59 | A concrete send to oneself that loses its amount |
| UowBlocks.BlockKeepsStakes | utility/unit_of_work/tx_message_signers.go:15-30 | Over a whole block no actor disappears and none changes its stake or output account, since no edit of a stake is ever accepted |
| UowPools.BlockPools | utility/unit_of_work/block.go:102-156 | Over a whole block the pools of servicers, fishermen and validators receive nothing, that of applications receives the stakes of all types, and each pays exactly the stakes due of its type, in whatever order actors are listed |
| UowPools.ChainPools | utility/unit_of_work/tx_message_handler.go:95-101 | The same over every chain of blocks; a pool of another type than applications is below zero if and only if it has paid out more than it held at the start |
| UowPools.PayOutsDrainPool | utility/unit_of_work/block.go:135-152 | Paying out a list of actors takes exactly their stakes from the pools of their types |
| UowPools.PayOutsCreditOutputs | utility/unit_of_work/block.go:135-152 | Paying out a list of actors raises every account by exactly the stakes of the listed actors whose output it is |
| UowPools.EndBlockBalances | utility/unit_of_work/block.go:38-156 | Every balance after the end of a block is the one before plus its share of the collected fees and the stakes paid to it or from it |
| UowPools.EndBlockActors | utility/unit_of_work/block.go:158-205 | Every actor after the end of a block is as before, but for a new unstaking height if it was paused for longer than its type allows |
| UowPools.EndBlockSucceedsIff | utility/unit_of_work/block.go:38-181 | The end of a block succeeds if and only if the proposer's percentage is set and within 0 to 100 and every type has its pause parameters |
| UowPools.BlockBalances | utility/unit_of_work/module.go:51-103 | Over a whole block every balance changes by what its transactions add, then by the rewards out of the fees collected by then, then by the stakes due, in whatever order actors are listed |
| UowPools.ServicerPoolOverdrawn | utility/unit_of_work/block.go:118-120 | A servicer whose stake of five lies in the pool of applications leaves the pool of servicers at minus five |
| UowBlocks.MessageTotal | utility/unit_of_work/tx_message_handler.go:34-213 | Every message handler keeps the sum of all balances, but for the amount of a successful send to oneself |
| UowBlocks.TransactionTotal | utility/unit_of_work/transaction.go:16-23 | Fee, message and failure paths of one transaction keep the total except for that burn |
| UowBlocks.EndBlockConserves | utility/unit_of_work/block.go:66-156 | Rewards, payouts and unstaking keep the total |
| UowBlocks.OverdueIsPostponed | utility/unit_of_work/block.go:158-205 | An actor paused beyond its limit is overdue again at the next block, and ready for payout there exactly when the unstaking period is one block |
| UowBlocks.ReapPartitions | utility/unit_of_work/uow_leader.go:69-119 | Every transaction of the pool ends as exactly one of proposed, rejected or still pooled |
| UowBlocks.ReapProposes | utility/unit_of_work/uow_leader.go:69-119 | The proposed transactions are a subsequence of the pool, smaller in total than the limit, and as many as were indexed |
| UowBlocks.ReapFillsBlock | utility/unit_of_work/uow_leader.go:69-119 | A pool that is not emptied is left with a transaction that would have reached the limit |
| UowBlocks.ReapRejects | utility/unit_of_work/uow_leader.go:69-119 | A transaction is rejected only if it is refused in a state that proposed transactions lead to |
| UowBlocks.ReplayTakesAll | utility/unit_of_work/module.go:141-178 | A proposal replays if and only if each transaction decodes, is valid and is accepted in the state that those before it leave |
| UowBlocks.ReplayIndexes | utility/unit_of_work/module.go:141-178 | A replayed proposal appends its transactions to the index in order, at consecutive places of the block's height |
| UowModule.UnitOfWork.ReapMempool | utility/unit_of_work/uow_leader.go:69-119 | The loop terminates and reaps as specified; a pool within its limits is left with exactly what remains |
| UowModule.UnitOfWork.CreateProposalBlock | utility/unit_of_work/uow_leader.go:32-66 | Leaves the specified state, transactions, hash and pool, or fails exactly when specified; the sum of all balances changes by what successful sends to oneself burn |
| UowModule.UnitOfWork.ProcessProposalBlockTransactions | utility/unit_of_work/module.go:141-178 | The loop succeeds exactly when each transaction decodes, is valid and is accepted after those before it, indexes them in order and removes every one from the pool |
| UowModule.UnitOfWork.ApplyBlock | utility/unit_of_work/module.go:51-103 | Succeeds exactly when the proposal is set, replays and has the proposed hash, and then leaves the specified state with the transactions indexed in order and the hash of the proposal, unless that is to be ignored; the sum of all balances changes by what successful sends to oneself burn |
| UowModule.UnitOfWork.Process | utility/unit_of_work/transaction.go:16-55 | Accepted exactly when one that may sign it can pay its price; a rejected transaction changes nothing; an accepted one moves its fee from the signer to the fee collector and, exactly when its message succeeds, the amount from payer to payee, so that every other balance stays; actors and parameters change as `AcceptedEffect` says; the sum of all balances changes by what successful sends to oneself burn |
| UowModule.UnitOfWork.ValidateTxSignature | utility/unit_of_work/transaction.go:73-86 | Accepts exactly a signer among the candidates |
| UowModule.UnitOfWork.UnbondUnstakingActors | utility/unit_of_work/block.go:102-156 | The nested loops pay out every ready actor once: each account gains exactly the stakes of the listed actors whose output it is, each pool loses exactly the stakes of its types, and nothing else changes |
| UowModule.UnitOfWork.BeginUnstakingMaxPausedActors | utility/unit_of_work/block.go:158-181 | The loop starts unstaking the actors paused too long, or fails on a missing parameter |
| UowModule.UnitOfWork.EndOfBlock | utility/unit_of_work/block.go:38-63 | Rewards, payouts and unstaking as specified; every balance changes by the proposer's or the DAO's share of the collected fees and by the stakes paid, and their sum is kept |
| UowModule.UnitOfWork.HandleProposerRewards | utility/unit_of_work/block.go:66-100 | The fee collector is emptied, the proposer gets its cut of the fees, the DAO the rest, no other balance changes, and their sum is kept |
| UowModule.UnitOfWork.HandleEditStakeMessage | utility/unit_of_work/tx_message_handler.go:120-174 | Succeeds exactly when the stake is not lowered, the difference is at hand and the chains are within their limit; the difference leaves the signer for the stake pool, and the actor keeps all but stake, chains and service address |
| Ledger.OrderOfMoves | utility/unit_of_work/block.go:135-152 | Permuted payouts give equal balances |
| Ledger.MoveAllConserves | utility/unit_of_work/block.go:135-152 | Payouts move value from pools to accounts without loss |
| TxMempool.TxFifoMempool.AddTx | utility/types/tx_fifo_mempool.go:22-27 | Refuses exactly a known hash; drops the oldest exactly when a counter exceeds its limit, so that the number of transactions never does; the transaction counter is always the queue's length; the byte counter stays right after an overflow exactly when pushed and evicted transaction have the same length |
| TxMempool.TxFifoMempool.PopTx | utility/types/tx_fifo_mempool.go:54-56 | Takes the front and keeps both counters right |
| TxMempool.TxFifoMempool.RemoveTx | utility/types/tx_fifo_mempool.go:59-62 | Removes the transaction with that hash, order kept, and keeps the counters right |
| HostKeys.StoreKeysAreDistinct | ibc/host/keys_ics04.go:14-150 | Store keys of two different entries with valid identifiers differ, across all client, connection, channel, sequence, packet and port keys |
| HostKeys.SlashesCollide | ibc/host/keys_ics04.go:14-26 | Without validation two different channels can have the same key |
| HostKeys.StoreKeyJoinsSegments | ibc/host/keys_ics02.go:13-38 | Every printer joins the segments of its entry with slashes |
| HostKeys.JoinInjective | ibc/host/keys.go:33-47 | Joining slash-free segments with slashes is injective |
| HostKeys.ItoaInjective | ibc/host/keys_ics02.go:25-28 | Decimal heights and sequences are told apart |
| HostKeys.BasicValidation | ibc/host/identifiers.go:106-133 | The checks in order accept exactly the well-formed identifiers, which have no slash |
| HostKeys.GenerateIdentifier | ibc/host/identifiers.go:90-103 | Whatever the random source, the identifier is well formed and at most `max` long; it reaches `min` whenever twice `min` is at most 33 |
| Ics23.StepsFoldToRoot | ibc/store/proofs_ics23.go:132-153 | For every tree, path and hash, folding the converted steps over the digest where the walk ends gives the root |
| Ics23.StepsFitSpec | ibc/store/proofs_ics23.go:22-40 | Every converted step fits the prefix and suffix sizes of smtSpec |
| Ics23.MembersVerify | ibc/store/proofs_ics23.go:81-96 | The converted proof of a pair in the tree is accepted under the tree's root |
| Ics23.VerifiedIsMember | ibc/store/proofs_ics23.go:47-52 | A proof accepted under a tree's root, whoever made it, proves membership, unless the hash collides on what was hashed |
| Ics23.AbsentKeysFoldToRoot | ibc/store/proofs_ics23.go:98-128 | For an absent key the steps lead to the root from the empty digest or from the other leaf that the proof carries, and that leaf is in the tree |
| Ics23.WalkFindsLeaf | ibc/store/proofs_ics23.go:155-158 | A tree whose leaves sit where their bits lead holds a pair exactly when the walk along its path ends there |
| Ics23.LeavesAscend | ibc/store/proofs_ics23.go:155-158 | In a subtree whose leaves sit where their bits lead, left for 0, the leaves from left to right ascend in byte order of their paths |
| Ics23.TreeIsOrdered | ibc/store/proofs_ics23.go:155-158 | The same for a whole tree |
| Ics23.ConvertSideNodesToSteps | ibc/store/proofs_ics23.go:132-153 | Each step has the side node as suffix exactly when the path's bit at its depth, by division of the byte, is 0, and else in its prefix, deepest first |
| Ics23.ConvertSMPToExistenceProof | ibc/store/proofs_ics23.go:81-96 | The converted proof is accepted under the root of every tree that the side nodes were taken from |
| Ics23.ConvertSMPToExclusionProof | ibc/store/proofs_ics23.go:98-128 | The carried leaf is split into path and value without loss, or replaced by the default |
| KvStore.PrefixRange | persistence/kvstore/kvstore.go:144-159 | The range from a prefix to its computed end is exactly the set of keys with that prefix; no end for the empty prefix and for bytes 255 |
| KvStore.KVStore.GetAll | persistence/kvstore/kvstore.go:93-126 | Ascending gives the keys with the prefix in order with their values; descending gives the reverse exactly when the end of the range is not itself stored before such keys, and otherwise nothing, or the prefix alone where the range has no end |
| KvStore.EndKeyHidesPrefix | persistence/kvstore/kvstore.go:98-107 | A concrete store whose descending scan misses a key |
| KvStore.KVStore.Set | persistence/kvstore/kvstore.go:61-65 | The map is updated at the key and the keys stay sorted |
| TxIndex.TxIndexer.Index | persistence/indexer/indexer.go:71-91 | Filing a transaction, known hash or place included, extends the log that the stored keys and records are exactly made of |
| TxIndex.TxIndexer.GetByHeight | persistence/indexer/indexer.go:97-99 | Exactly the transactions of the height, in order of index, either way round, once all hashes and places differ; in general one record per stored key, the latest with its hash |
| TxIndex.TxIndexer.GetBySender | persistence/indexer/indexer.go:101-103 | Exactly the transactions signed by the address, in order of height and index, either way round, once all hashes and places differ; in general one record per stored key, the latest with its hash |
| TxIndex.TxIndexer.GetByRecipient | persistence/indexer/indexer.go:105-107 | Exactly the transactions sent to the address, in order of height and index, either way round, once all hashes and places differ; in general one record per stored key, the latest with its hash |
| TxIndex.TxIndexer.GetByHash | persistence/indexer/indexer.go:93-95 | The latest transaction filed with the hash, or nothing exactly when there is none |
| TxIndex.TxIndexer.Query | persistence/indexer/indexer.go:115-128 | The scan and the loop over hash keys answer for one name of any kind |
| TxIndex.AllFoundIff | persistence/indexer/indexer.go:71-91 | Every indexed transaction is found by its hash and through each of its keys if and only if no two share a hash or a place |
| TxIndex.AnswersAreExact | persistence/indexer/indexer.go:115-128 | With all hashes and places different, what the keys of a name lead to is exactly the transactions filed under it, in order of height and index |
| TxIndex.KeyOrder | persistence/indexer/indexer.go:165-197 | Within a name keys are ordered as height and index are, both ways, and tell them apart |
| TxIndex.KeysDiffer | persistence/indexer/indexer.go:165-201 | Keys of transactions at different places, or of different kinds, never coincide |
| TxIndex.EndIsNoKey | persistence/indexer/indexer.go:173-197 | The end of a name's range is never a stored key, so descending scans miss nothing |
| TxIndex.DescendingIsReverse | persistence/indexer/indexer.go:23-30 | The descending answer is the ascending one reversed |

## Left out

- Debug entry points, forced views, restarts, manual pacemaker mode and state sync: not modelled.
- Timers and goroutine scheduling: a timeout is an event that may happen at any moment; message handling is atomic.
- Cryptography, hashing and protobuf: signatures are ideal values, encodings are injective, hash functions are arbitrary.
- Liveness of consensus: only safety is stated.
- Heights are unbounded naturals; only rounds, the elected id and the pool counters wrap.
- Validators persisted for a height are taken to be the same for all nodes; execution of a block by the utility module is an answer of the environment in the consensus model.
- The message pool's byte limits are choices of the environment, so results hold whatever it keeps; block headers are always present and the previous state hash is not carried.
- Blocks are values: two fields that point to one block object are not aliased.
- ConsensusRuns.AtMostOneVotePerStep: stated for runs that never interrupt the last round; `TwoVotesInOneStep` shows that this is needed, and `RepeatedVotesAreSeparated` is about every run.
- ConsensusRuns.QuietCommitMatchesVote: stated for runs that never interrupt the last round; `CommitAgainstVote` shows that this is needed, and `CommitMatchesVote` is about every run.
- Agreement.CommitsAgreeIff: a certificate that the node built itself, and that does not pass validation, is covered unless it counted both a signature from a Propose message of that view and the node's own vote. Of commits under a certificate of another height nothing is claimed: `OldCertificateSplitsCommits`.
- RainTree.MaxLevels: an empty store, whose logarithm is minus infinity, gets no levels; the quotient of logarithms is exact before it is rounded to seven decimals; the errors of math.Log, far below that rounding, are not modelled.
- RainTreeSizes.Coefficients: math.Pow is taken to multiply by repeated squaring, as the Go library does on all but one platform; its source is not part of this model.
- RainTreeSizes.TargetsInView: stated for fewer than 2^53 peers, which a double counts exactly; a message whose level is above the receiver's own number of levels is not modelled.
- RainTreeCoverage.CodeCoversIff: coverage for peer counts that are not powers of three is not stated; the code leaves the remainder to the background router. Unstaked nodes and the unicast and background routers are not modelled.
- Mutexes of the FIFO set are the atomicity of its methods; its generic overflow and callback hooks are modelled for the nonce deduper and for the transaction pool only.
- Persistence failures and SQL: the ledger, actors and parameters are maps, and reads see the unit of work's own writes, as its documentation asks.
- The sum of transaction sizes while reaping does not wrap at 2^64.
- Parameter values of a type that the handler treats as fatal; begin-of-block handling of byzantine validators, missed blocks and burns, which are unfinished.
- Message-level ValidateBasic, which block execution does not call.
- FloatQuorum.FloatThresholdIsExact: stated for validator counts that a double holds exactly; subnormal numbers and overflow cannot occur at these magnitudes and are not modelled.
- ICS-24 identifiers are sequences of characters; the source measures bytes, which agrees on every accepted identifier. Key-trimming variants and commitment prefixes are easy and left out.
- Ics23.VerifiedIsMember: covers membership proofs; the verifier of exclusion proofs belongs to the ics23 library and is not part of this model. The library's verifier is represented by the size checks of smtSpec and the root comparison. Extension nodes of the sparse Merkle tree library are not part of this model.
- KvStore.KVStore.GetAll: the iterator is modelled on the documented seek order of the Badger library.
- TxIndex.TxIndexer.Index: addresses have no slash; the number encoding of the lexnum library is any order-preserving encoding with bytes above the separator.
- The node state machine table, pagination, telemetry, RPC, CLI, keybase and libp2p: finite, easy or I/O.
