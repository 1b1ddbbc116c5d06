# Verified model of the Feedo nodes

Feedo is a network of consensus nodes, storage nodes and search nodes with an SDK
on top. This project models the parts of it in which state, order and arithmetic
interact most, and proves what they are for.

- **Consensus.** Transactions move PrePrepare, Prepare, Commit, Finalized by votes
  of a committee. `Ppor` holds the classes, updated in place, and proves each method
  against the value functions of `PporProtocol`. `Confluence` proves that the order
  of votes does not matter and that three self-delivery rounds drain a node's own
  votes. `PporNetwork` runs the correct members over a growing set of messages, some
  of them forged, and proves Byzantine safety and liveness at quiescence; `Quorum`
  is the arithmetic under it. `Committee`, `PporClock` and `Epochs` cover selection and
  rotation at the level of single messages, and `Finalization` is when a transaction
  takes effect.
- **Storage.** `ErasureCoding` stripes, pads, encodes and decodes. The Reed-Solomon
  crate is not part of the repository; its place is taken by a systematic code by
  polynomial evaluation over the byte field with polynomial 0x11D, whose field laws
  (`Galois`) and interpolation theory (`Polynomials`) are proved, so nothing about it
  is assumed. `Placement` is the round-robin over peers. `FetchProtocol` is the
  download machine; `FetchSafety`, `FetchRuns` and `FetchNone` say what it tells over
  every order of commands and answers, `FetchOutcome` how each download ends, and
  `FetchExamples` runs it into its failures.
  `StorageNode` is the event loop on its own tables and record store (`ShardStore`),
  proved to take the machine's steps, and `StorageSystem` is a network of such peers,
  in which the results about one peer become results about what was uploaded
  (`StorageExamples` is a run of it), and `Durability` joins upload, placement and code:
  a file outlives the peers that its placement can lose.
- **Replicated data and quota.** `Crdt` is the manager with its store,
  `CrdtConvergence` says what replicas hold after any delivery and when they agree,
  `CrdtMixing` what happens to an object used as both types.
  `QuotaProtocol`, `QuotaSafety` and `QuotaLimits` interleave the quota's atomic loads,
  compare-exchanges and subtractions in every order; `Quota` is the same code for one
  thread.
- **Ledger, grants, names, snapshots.** `Accounting`, `Grants` and `NameRegistry` are
  the three stores, `Bank` runs commands over all of them, `Snapshot` takes and
  replays snapshots from any iteration order of the tables.
- **SDK and search.** `WorkerPool`, `Sdk` and `SdkClient` are chunked upload and
  download by ten workers, plain and encrypted. `TokenBucket` is the rate limiter,
  `TextChunks`, `Embeddings` and `VectorService` the batch behind an expiring and
  evicting cache.

`Basics`, `Tables`, `Strings` and `Wrappers` hold what several of these share.
`dafny verify dfyconfig.toml` checks everything.

## What does not hold

Some expectations fail in the code. Each has an exact condition among the members below,
and, where the condition alone does not show it, a run in which it fails.

- A download can stay open for ever. How each ends is `FetchOutcome.DownloadEnds`: with
  more than fifteen shards lost, its caller hears only if the last answer was a failure
  and no shard was missing in the peer's own store (`FetchOutcome.LastAnswerEndsIff`,
  `FetchExamples.HangsForEver`, `FetchExamples.LastFailureEndsNothing`). It can be stuck
  from the start (`FetchOutcome.StuckAtOnceIff`, `FetchExamples.StuckFromTheStart`),
  though nothing is lost and no caller careless (`StorageExamples.ManifestBeforeShards`);
  and so it is when the manifest found cannot be read
  (`FetchOutcome.UnreadableSticksIff`, `FetchExamples.UnreadableManifestSticks`).
- Downloading a file again right after a download of it: the answers that the first one
  left over are counted for the second. It can be told "none" with requests still open
  (`FetchExamples.GivesUpTooSoon`, exactly when: `FetchOutcome.DownloadNonesIff`); and a
  third one can be answered with an empty file (`FetchExamples.GivesAnEmptyFile`),
  exactly if its manifest is not at hand and thirty shards are under way when it begins
  (`FetchRuns.DownloadRightIff`).
- A second download of a hash in flight leaves the first caller without an answer, and can
  be answered with an empty file (`FetchRuns.ReplacedNeverAnswered`,
  `FetchRuns.DataRightIff`, `FetchExamples.OverlappingDownloadsGoWrong`).
- A committee selection in the middle of a transaction lets votes count that are not of
  the committee the quorum was sized by (`Epochs.SnapshotsAlwaysIff`,
  `Epochs.ForeignVoteCountedIff`, `Epochs.ForeignVoteCounted`).
- A transaction takes effect when anyone gossips that it is Finalized, final here or not,
  and a node's own finalization has no effect (`Finalization.AppliedIsFinalIff`,
  `Finalization.AppliesIff`, `Finalization.AppliedUnfinalized`,
  `Finalization.FinalizedUnapplied`).
- A relayed proposal overwrites what a node knew (`Confluence.RelayHarmlessIffFresh`).
- One CRDT object used as both types loses state (`CrdtMixing.MapKeptIff`,
  `CrdtMixing.SetKeptIff`), and without an order of delivery sets diverge
  (`CrdtConvergence.OrSetUnorderedIff`).
- Replay leaves the ledger's database behind (`Snapshot.ReplayMirrorsIff`), and into a node
  with other wallets the root disagrees (`Snapshot.ReplayOverwrites`).
- Wallets that are not addresses, DIDs among them, share one leaf under the Merkle root, so
  the root does not tell whose a balance is (`Snapshot.RootIdentifies`,
  `Snapshot.AlikeLeavesAlikeRoots`).
- A restart forgets balances and grant programs and keeps the rows of claims: a grant made
  again pays again (`Bank.GrantsSoundIff`, `Bank.PaidTwice`, `Bank.CreditsConserved`).
- Limits of 2^64 - 1 make a counter wrap (`QuotaLimits.ExactIff`,
  `QuotaLimits.UserOverflows`, `QuotaLimits.TotalOverflows`).
- A large file comes back as its manifest when that reaches 1 MiB or the request for some
  chunk fails twice (`Sdk.LargeRoundTrip`, `Sdk.PrivateRoundTrip`), and a small file that
  reads as a manifest may come back as its chunks (`Sdk.SmallRoundTripIff`,
  `Sdk.EmptyManifestIsMisread`).
- A private file uploaded for a grantee can be read by nobody (`Sdk.ReadableIff`).
- A query's vector kept under a passage's key is handed out as the passage's
  (`Embeddings.BatchIsSimpleByWrites`, `VectorService.QueryThenBatch`).

The comment on `self_deliver_pbft_chain` (microservices/consensus-node/src/swarm_loop.rs:329)
says that the message returned could be Finalized; on the code it is always none
(`Epochs.ChainAlwaysReturnsNothing`), so finalization here is the change of phase.

## Model

| member | source | states |
|---|---|---|
| `Quorum.RequiredVotesBalances` | microservices/consensus-node/src/ppor.rs:59-65 | the quorum of a committee of n is n less the (n-1)/3 members that may be faulty, so correct members fill it alone, and two quorums overlap in more members than may be faulty |
| `Quorum.QuorumsIntersect` | microservices/consensus-node/src/ppor.rs:59-65 | any two quorums of one committee share at least (n-1)/3 + 1 members |
| `Ppor.PporState.ProcessMessage` | microservices/consensus-node/src/ppor.rs:72-98 | a vote changes phase, prepares and commits, and returns a phase, as the value machine says |
| `PporProtocol.VotesMean` | microservices/consensus-node/src/ppor.rs:72-98 | a vote joins its kind's voters; a quorum of Prepare votes moves Prepare to Commit, one of Commit votes Commit to Finalized, a PrePrepare what is validated on to Prepare; the phase returned is the new one, if it is new |
| `Ppor.PporState.MarkValidated` | microservices/consensus-node/src/ppor.rs:100-107 | local validation is recorded and moves a transaction on from PrePrepare |
| `Ppor.PporManager.constructor` | microservices/consensus-node/src/ppor.rs:194-241 | a manager starts with the on-chain committee, or alone if that is empty, everyone with reputation 100 |
| `Ppor.PporManager.AdjustReputation` | microservices/consensus-node/src/ppor.rs:316-321 | the node's reputation moves by the delta from its value, or from 10, and never below 1; no other's does |
| `Ppor.PporManager.SelectCommitteeWeighted` | microservices/consensus-node/src/ppor.rs:278-302 | whatever order the table is iterated in, min(n, 21) members of the table are seated, none of whom has a lower hash times reputation, in 64 wrapping bits, than a node left out; nothing else changes |
| `Ppor.PporManager.RotateEpoch` | microservices/consensus-node/src/ppor.rs:257-268 | timed-out transactions go, the epoch advances, and such a committee takes over, hashed with the last finalized hash and the new epoch |
| `Ppor.PporManager.MaybeRotateEpoch` | microservices/consensus-node/src/ppor.rs:270-274 | a rotation happens exactly if the clock has run out |
| `Ppor.PporManager.Propose` | microservices/consensus-node/src/ppor.rs:338-353 | a validator starts the transaction afresh, with the view, sequence, type and current committee, no votes and not validated, and returns the PrePrepare that carries them; others do nothing |
| `Ppor.PporManager.HandleMessage` | microservices/consensus-node/src/ppor.rs:355-398 | after the rotation that may be due, the vote acts as the value machine says; a transaction that was not known begins with the message's view, sequence and type; a reply tells the phase reached and carries the view, sequence and type of the transaction as it is kept here |
| `Ppor.PporManager.MarkValidated` | microservices/consensus-node/src/ppor.rs:400-423 | the same for local validation: a transaction that was not known begins with the given type, and a reply is a Prepare with the transaction's own view, sequence and type |
| `PporProtocol.HandleMeans` | microservices/consensus-node/src/ppor.rs:355-398 | a node replies exactly if it is a validator and the message moved the transaction on; the reply has the phase reached, the node as sender, and the hash, view, sequence and type with which the transaction began; other transactions stay |
| `PporProtocol.HandleRewards` | microservices/consensus-node/src/ppor.rs:355-385 | an unknown sender enters the table with 10; who brings a transaction to Prepare gains 1, to Commit 2, and nobody else gains; the finalized hash is recorded exactly at finalization |
| `PporProtocol.MarkValidatedMeans` | microservices/consensus-node/src/ppor.rs:400-423 | local validation replies exactly if it moved the transaction on, and then with what the transaction began with |
| `Ppor.SelfDeliverPbftChain` | microservices/consensus-node/src/swarm_loop.rs:312-331 | three rounds, each of which handles the latest reply after the rotation that the clock may ask for: manager, returned message and messages sent are those of such a chain, step by step |
| `Ppor.OnEvent` | microservices/consensus-node/src/swarm_loop.rs:486-960 | each way a vote or a transaction reaches the node, in direct mode and in gossip mode and with any expiries before and between the rounds, ends in the state and messages of one beginning and one chain |
| `PporClock.CalmReaction` | microservices/consensus-node/src/swarm_loop.rs:312-331 | while no epoch expires, beginning and chain are the reaction whose order results follow |
| `PporClock.ChainReturnsNothing` | microservices/consensus-node/src/swarm_loop.rs:320-330 | whatever starts the chain and whatever epochs turn between its rounds, the third round answers nothing, provided that what has been validated has left PrePrepare |
| `Confluence.VoteSettles` | microservices/consensus-node/src/swarm_loop.rs:320-330 | after one more vote, three rounds take a settled transaction to the phase that its votes determine, with the own votes in, and end with no message |
| `Confluence.ValidationSettles` | microservices/consensus-node/src/ppor.rs:100-107 | so do the three rounds after local validation |
| `Confluence.AnnouncesPhasesPassed` | microservices/consensus-node/src/swarm_loop.rs:320-327 | a chain of any length sends one message for each phase that it comes to, each once and in order, and nothing else |
| `Confluence.EventProjects` | microservices/consensus-node/src/swarm_loop.rs:312-331 | any event settles its transaction with the vote or validation that it brings, leaves other transactions alone, announces the phases passed, and makes the chain return nothing |
| `Confluence.Confluence` | microservices/consensus-node/src/ppor.rs:72-107 | after any sequence of events the phase and votes of each transaction are a function of whether it was validated and of who voted Prepare and Commit |
| `Confluence.OrderDoesNotMatter` | microservices/consensus-node/src/ppor.rs:355-423 | delivery order and repetition of events do not change the outcome |
| `Confluence.RelayHarmlessIffFresh` | microservices/consensus-node/src/ppor.rs:338-343 | a relayed proposal leaves its transaction as it was exactly if there was nothing yet to overwrite |
| `PporNetwork.InvAlways` | microservices/consensus-node/src/ppor.rs:355-423 | in every run with at most (n-1)/3 arbitrary members: votes never run ahead of phases, every phase passed was announced, every delivered vote is recorded, every core is settled |
| `PporNetwork.PhasesRiseAlways` | microservices/consensus-node/src/ppor.rs:72-107 | along every run phases, recorded votes and messages only grow |
| `PporNetwork.Safety` | microservices/consensus-node/src/ppor.rs:59-107 | a transaction finalized at a correct node was validated locally and brought to a Prepare quorum by at least f + 1 correct members |
| `PporNetwork.FinalizationsOverlap` | microservices/consensus-node/src/ppor.rs:59-107 | the Commit quorums behind any two finalizations, of any transactions, anywhere and at any moments, share at least f + 1 members |
| `PporNetwork.FinalizedForever` | microservices/consensus-node/src/ppor.rs:72-107 | a finalized transaction stays finalized |
| `PporNetwork.Liveness` | microservices/consensus-node/src/ppor.rs:59-107 | if n - f correct members have validated a transaction and all that they sent has reached all of them, each has finalized it |
| `Committee.SelectedIsTop` | microservices/consensus-node/src/ppor.rs:278-302 | every iteration order yields min(n, 21) members of the table, none scoring below a node left out |
| `Committee.EveryTopIsSelected` | microservices/consensus-node/src/ppor.rs:278-302 | every such committee is what some iteration order yields |
| `Committee.UniqueIffNoTie` | microservices/consensus-node/src/ppor.rs:278-302 | the committee is the same for every iteration order exactly if no member ties with a node left out |
| `Committee.TopByHashAndReputation` | microservices/consensus-node/src/ppor.rs:278-302 | a top committee in plain terms: nobody left out has a higher hash times reputation, in 64 wrapping bits, than a member |
| `Committee.ReputationCounts` | microservices/consensus-node/src/ppor.rs:286-288 | of two nodes with the same hash, the one with more reputation is never left out for the other, short of overflow and unless the hash is zero |
| `Committee.HashCounts` | microservices/consensus-node/src/ppor.rs:286-288 | of two nodes with the same reputation, nor is the one with the greater hash |
| `Epochs.CommitteeAlwaysSound` | microservices/consensus-node/src/ppor.rs:185-302 | over every run of single messages, validations, proposals, rotations (between the rounds of a chain too), selections, reputation changes and announced peers of any reputation, the committee is non-empty and within the reputation table; after a selection it has min(n, 21) members |
| `Epochs.IntroducedMeans` | microservices/consensus-node/src/swarm_loop.rs:680-690 | an announced peer enters the table with the reputation that it claims, and one that is known keeps its own |
| `Epochs.RoundIsOps` | microservices/consensus-node/src/swarm_loop.rs:320-323 | a round of the chain is a rotation, if one is due, and the handling of one message, so that chains with expiries inside them are among those runs |
| `Epochs.BeginIsOps` | microservices/consensus-node/src/swarm_loop.rs:486-960 | so is what an event does before the chain: a rotation, if one is due, and the handling of its message, the validation or the proposal with its own hash, sequence and type; the first message is the one that this sends |
| `Epochs.ChainAlwaysReturnsNothing` | microservices/consensus-node/src/swarm_loop.rs:312-331 | after every such run from a new manager, the chain that the event loop then starts returns nothing |
| `Epochs.ForeignVoteCountedIff` | microservices/consensus-node/src/ppor.rs:355-372 | senders are tested against the current committee and counted against the snapshot: a message keeps all counted votes within the snapshot exactly if it is no vote, its sender is not seated, or the sender was seated when the transaction began |
| `Epochs.SnapshotsAlwaysIff` | microservices/consensus-node/src/ppor.rs:355-372 | over every such run, all counted votes stay within the snapshots throughout exactly if no vote came from a sender seated then and not when its transaction began |
| `Epochs.SnapshotOrigin` | microservices/consensus-node/src/ppor.rs:338-372 | over every such run from a new manager, the snapshot of a transaction is the committee of the moment when it began, and stays so while it is kept |
| `Epochs.ForeignVoteCounted` | microservices/consensus-node/src/ppor.rs:355-372 | a run in which it goes wrong: a peer announces itself after a transaction began, is seated, and its vote is counted for it |
| `Epochs.MessagesCarryTheirBeginning` | microservices/consensus-node/src/ppor.rs:355-423 | over every run from a new manager, each message that the node sends carries the view, the sequence and the type with which its transaction began here |
| `Finalization.AppliesIff` | microservices/consensus-node/src/swarm_loop.rs:807-885 | whatever the epochs do, a transaction takes effect exactly if gossip reports it Finalized while it is pending, whoever says so and whatever votes are in; the effect is made once and leaves the pending table |
| `Finalization.AppliedWereReported` | microservices/consensus-node/src/swarm_loop.rs:812-865 | over every run from a new manager, each effect was reported by gossip when it was pending; the node's own finalization has none |
| `Finalization.CoresAlwaysFollow` | microservices/consensus-node/src/swarm_loop.rs:165-306 | over every run of the event loop within an epoch, in direct mode and in gossip mode, effects that forget the vote state of their transactions leave those of all other transactions as their votes determine |
| `Finalization.AppliedIsFinalIff` | microservices/consensus-node/src/swarm_loop.rs:853-865 | in every such run, a transaction that takes effect for the first time is Finalized here exactly if it was validated here and a quorum of Prepare votes and one of Commit votes have been delivered, its own included |
| `Finalization.AppliedUnfinalized` | microservices/consensus-node/src/swarm_loop.rs:853-865 | a run in which it is not: a credit without a quorum is paid on the word of a node outside the committee |
| `Finalization.FinalizedUnapplied` | microservices/consensus-node/src/swarm_loop.rs:842-885 | and a run in which a transaction is Finalized here and has no effect |
| `Finalization.FinalizedIsReported` | microservices/consensus-node/src/swarm_loop.rs:842-865 | what a node sends as Finalized takes effect at a node exactly if the transaction is pending there under the type with which it began at the sender |
| `Finalization.HandleFinalizedTx` | microservices/consensus-node/src/swarm_loop.rs:165-306 | on the node's objects: the pending transaction goes, its effect is made on ledger and names, and its vote state is dropped in the cases in which the code drops it; what is not pending changes nothing |
| `Finalization.EffectMeans` | microservices/consensus-node/src/swarm_loop.rs:176-300 | by type: 3 registers a name for 100, if they can be paid; 4 gives a name its CID and gateways; 5 credits a wallet or debits it if covered; 6 fills in a name's metadata; no effect does anything else |
| `Galois.MulAssociates` | microservices/storage-node/src/network.rs:6 | multiplication in the byte field of the code, with polynomial 0x11D, is associative |
| `Galois.MulCommutes` | microservices/storage-node/src/network.rs:6 | and commutative |
| `Galois.InverseWorks` | microservices/storage-node/src/network.rs:6 | every non-zero byte has the inverse that raising to the power 254 computes |
| `Galois.ReducesBy11D` | microservices/storage-node/src/network.rs:6 | the field is the one in which x^8 is x^4 + x^3 + x^2 + 1 |
| `Polynomials.TooManyRoots` | microservices/storage-node/src/network.rs:6 | a non-zero polynomial has fewer roots than coefficients |
| `Polynomials.InterpolateHits` | microservices/storage-node/src/network.rs:6 | through any points with different abscissas the interpolated polynomial passes |
| `ErasureCoding.Systematic` | microservices/storage-node/src/network.rs:54-55 | encoding leaves the 30 data shards as they are |
| `ErasureCoding.AnyThirtyDetermine` | microservices/storage-node/src/network.rs:58-60 | any 30 of the 45 symbols of a codeword determine the others |
| `ErasureCoding.SymbolsArePolynomial` | microservices/storage-node/src/network.rs:48-56 | a codeword is the values at 0 .. 44 of the polynomial with 30 coefficients that takes the data at 0 .. 29 |
| `ErasureCoding.ReconstructsCodeword` | microservices/storage-node/src/network.rs:58-60 | reconstruction succeeds exactly if 30 shards of a codeword are left, and then gives back all 45 |
| `ErasureCoding.EncodeData` | microservices/storage-node/src/network.rs:42-56 | the striping loop computes the codeword of the data: 45 shards of the least size at which 30 hold the data, the data in order in the first 30, zeros behind it; empty data is an error |
| `ErasureCoding.ShardSizeIsLeast` | microservices/storage-node/src/network.rs:43 | 30 shards hold the data exactly if they have at least that size |
| `ErasureCoding.DecodeData` | microservices/storage-node/src/network.rs:58-70 | reconstructing, concatenating the data shards and truncating computes the decoded bytes, errors included; a list of another length than 45 is an error |
| `ErasureCoding.StripesConcat` | microservices/storage-node/src/network.rs:44-53 | the padded stripes put together and cut to the length are the data, also when trailing stripes are all padding |
| `ErasureCoding.RoundTrip` | microservices/storage-node/src/network.rs:42-70 | for every non-empty byte sequence and every loss of shards, decoding returns the input if 30 shards are left and fails otherwise |
| `Placement.EvenShare` | microservices/storage-node/src/swarm_loop.rs:450-453 | round-robin gives each of n peers 45 / n shards, and the first 45 mod n peers one more |
| `Placement.ToleratesIff` | microservices/storage-node/src/swarm_loop.rs:446-469 | every loss of k of n peers leaves 30 shards exactly if k (45 / n) + min(k, 45 mod n) is at most 15 |
| `Placement.CeilingSuffices` | microservices/storage-node/src/swarm_loop.rs:446-469 | the coarser bound k ceil(45 / n) <= 15 suffices |
| `Placement.SurvivesIff` | microservices/storage-node/src/swarm_loop.rs:446-469 | the file decodes after losing a set of peers exactly if they held at most 15 of its shards |
| `FetchSafety.ShardKeepsSound` | microservices/storage-node/src/swarm_loop.rs:350-374 | a genuine shard keeps every open fetch counting exactly its own shards; what it tells the caller is the uploaded file if the fetch has its manifest, and an empty file otherwise |
| `FetchSafety.FailureKeepsSound` | microservices/storage-node/src/swarm_loop.rs:376-407 | a failure keeps them too, and tells the caller "none" or nothing |
| `FetchSafety.ManifestKeepsSound` | microservices/storage-node/src/swarm_loop.rs:217-235 | so does a genuine manifest, which tells nothing |
| `FetchSafety.DownloadKeepsSound` | microservices/storage-node/src/swarm_loop.rs:491-552 | a download, of the same file as an open one or not, starts sound, with the local shards if its manifest is at hand, or answers at once with the uploaded file |
| `FetchSafety.StepKeepsSound` | microservices/storage-node/src/swarm_loop.rs:217-552 | every command and answer, whatever is under way from earlier downloads, keeps the invariant and tells callers only the uploaded file, "none", or an empty file if the length is not known |
| `FetchRuns.AnsweredAtMostOnce` | microservices/storage-node/src/swarm_loop.rs:350-408 | in every run, honest or not and with overlapping downloads, a hash has at most as many answers as it has had downloads |
| `FetchRuns.ReplacedNeverAnswered` | microservices/storage-node/src/swarm_loop.rs:531-552 | a download that is not answered at once takes the place of an open one of the same hash: from then on there are no more answers than new downloads, so the callers before it get none |
| `FetchRuns.DataRightIff` | microservices/storage-node/src/swarm_loop.rs:350-374 | in every run with unaltered shards, downloads overlapping or not, a caller given data is given the uploaded file exactly if the manifest came before the thirtieth shard, and an empty file otherwise |
| `FetchRuns.DownloadRightIff` | microservices/storage-node/src/swarm_loop.rs:350-374 | any download, with no other of its file open: whatever comes after it, the only data that its caller can be given is the file, exactly if the manifest is at hand or requests for fewer than thirty of its shards are still under way when it begins |
| `FetchRuns.DataRepliedIsDataUploaded` | microservices/storage-node/src/swarm_loop.rs:217-552 | in every run in which a file is not downloaded while it is being downloaded, nor while thirty of its shards are under way, any data replied is the data uploaded, for every order of answers |
| `FetchNone.NonesCompleteIff` | microservices/storage-node/src/swarm_loop.rs:376-407 | from a fetch that has its manifest on: whatever comes, "none" is told of it only with nothing more to come, exactly if no more answers are in or awaited than there are shards, or at most one is awaited |
| `FetchOutcome.DownloadNonesIff` | microservices/storage-node/src/swarm_loop.rs:376-407 | any download, with no other of its file open, its manifest at hand or not: "none" is told of it, once its manifest is known, only with nothing more to come, exactly if no request for the file is left over when it begins; or, with the manifest at hand, if no more are left over than shards are missing in the own store, at most one is under way, or thirty are in the store |
| `FetchOutcome.CleanComplete` | microservices/storage-node/src/swarm_loop.rs:376-407 | with nothing left over, "none" is told only if no shard was missing in the own store, and then with the last of the 45 answers, fewer than 30 of them shards |
| `FetchOutcome.OpenFetchesAddUp` | microservices/storage-node/src/swarm_loop.rs:217-235 | a download that begins with no request for the file under way, its manifest at hand or not: once it has its manifest, while it is open, each of the 45 shards has been received, has failed, is awaited, or was placed on this peer and missing in its store; the received ones fill as many slots, fewer than 30 |
| `FetchOutcome.LastAnswerEndsIff` | microservices/storage-node/src/swarm_loop.rs:350-408 | the last answer to such a download ends it exactly if it is the thirtieth shard, or a failure while no shard was missing in the own store; otherwise the download is stuck |
| `FetchOutcome.StuckAtOnceIff` | microservices/storage-node/src/swarm_loop.rs:505-540 | a download is stuck from its first moment exactly if the manifest is at hand and places all shards on this peer, of which it misses more than fifteen |
| `FetchOutcome.UnreadableSticksIff` | microservices/storage-node/src/swarm_loop.rs:217-218 | a manifest that cannot be read ends the search without an answer: the download is stuck exactly if no request for the file is left over |
| `FetchOutcome.NothingToCome` | microservices/storage-node/src/swarm_loop.rs:350-374 | a download that is open with every answer in is stuck |
| `FetchOutcome.StaysOpenForever` | microservices/storage-node/src/swarm_loop.rs:350-374 | a stuck download stays open, its caller unanswered, until the same hash is downloaded again |
| `FetchOutcome.DownloadEnds` | microservices/storage-node/src/swarm_loop.rs:217-552 | how every download ends that begins with no request for its file under way, once nothing of it is under way any more: with a manifest, the caller has been given the file exactly if at most fifteen shards have failed or were missing in the own store; otherwise "none" exactly if none was missing and the last answer was a failure, and else no answer, for ever; without a manifest it has been told "none", and of one that cannot be read, nothing |
| `FetchExamples.HangsForEver` | microservices/storage-node/src/swarm_loop.rs:350-374 | a run that ends stuck: 16 failures and 29 shards, in that order |
| `FetchExamples.GivesUpTooSoon` | microservices/storage-node/src/swarm_loop.rs:376-407 | a run of two downloads one after the other in which the second is told "none" with 29 shards received and 15 requests open |
| `FetchExamples.GivesAnEmptyFile` | microservices/storage-node/src/swarm_loop.rs:350-374 | a run of three downloads one after the other in which the last is answered with an empty file |
| `FetchExamples.StuckFromTheStart` | microservices/storage-node/src/swarm_loop.rs:505-540 | a download that is stuck at once: the manifest is at hand and places all shards here, where none is |
| `FetchExamples.LastFailureEndsNothing` | microservices/storage-node/src/swarm_loop.rs:376-407 | a run with the manifest at hand and one shard missing here: the other 44 requests fail, and the last failure leaves the download stuck |
| `FetchExamples.UnreadableManifestSticks` | microservices/storage-node/src/swarm_loop.rs:217-218 | a run in which the manifest found cannot be read, and the download is stuck |
| `FetchExamples.OverlappingDownloadsGoWrong` | microservices/storage-node/src/swarm_loop.rs:531-552 | a run in which a second download of a hash in flight is answered with an empty file; the first caller is not answered before it, and after it there is at most one answer in any continuation |
| `StorageNode.EventLoop.ShardData` | microservices/storage-node/src/swarm_loop.rs:350-374 | the handler, on the node's tables, takes the step of the fetch machine |
| `StorageNode.EventLoop.ShardUnavailable` | microservices/storage-node/src/swarm_loop.rs:376-407 | likewise for an absent shard or a failed request |
| `StorageNode.EventLoop.ManifestFound` | microservices/storage-node/src/swarm_loop.rs:217-235 | likewise for a manifest: one new request for each shard, under fresh numbers, to the peer that the manifest names for it |
| `StorageNode.EventLoop.ManifestNotFound` | microservices/storage-node/src/swarm_loop.rs:254-264 | likewise for a search that finds none |
| `StorageNode.EventLoop.Download` | microservices/storage-node/src/swarm_loop.rs:491-552 | likewise for the command, whose loop takes local shards and asks for the others, each of the peer that the manifest names for it |
| `StorageNode.EventLoop.Upload` | microservices/storage-node/src/swarm_loop.rs:417-489 | shard i of the codeword goes to peer i modulo their number, or is kept if that is this node or there is no peer, and nothing else is sent; the manifest says so, so that each of several peers is named for its round-robin share; the hash is answered; a full store refuses silently what it is to keep; empty data changes nothing, releases its zero bytes and answers "error" |
| `StorageNode.EventLoop.StoreShard` | microservices/storage-node/src/swarm_loop.rs:318-327 | afterwards the shard that a peer sent is held here unless the store is full, and every other shard as before |
| `StorageNode.EventLoop.Delete` | microservices/storage-node/src/swarm_loop.rs:553-570 | the manifest and the shards that it names go, all else stays, and the answer is the size that the manifest gave |
| `StorageSystem.UploadIsGenuine` | microservices/storage-node/src/swarm_loop.rs:446-480 | what an upload keeps, sends and publishes are the shards of the codeword and a manifest with the file's length and all 45 shards |
| `StorageSystem.UploadPlacesAll` | microservices/storage-node/src/swarm_loop.rs:446-480 | after an upload each shard is under way to the peer that the manifest names or, if that is the uploader itself, held there unless its store is full |
| `StorageSystem.KeptIsHeld` | microservices/storage-node/src/swarm_loop.rs:318-327 | a peer with room that takes a shard in holds it |
| `StorageSystem.HeldStays` | microservices/storage-node/src/swarm_loop.rs:318-327 | whatever peers do, a shard held stays held, unaltered, until its own store drops it |
| `StorageSystem.ServedIffHeld` | microservices/storage-node/src/swarm_loop.rs:328-332 | a peer asked for a shard answers with the uploaded one if it holds it, and with nothing otherwise |
| `Durability.UploadSurvives` | microservices/storage-node/src/swarm_loop.rs:446-480 | after an upload to distinct peers, whatever else goes on in the network: if those that are not lost have room, keep what they have and take in what they are sent, and the placement tolerates the loss of as many peers as are lost, then what is left where the manifest says decodes to the file |
| `StorageSystem.NextKeepsSound` | microservices/storage-node/src/swarm_loop.rs:217-570 | in a network of peers that upload, copy, keep, lose, serve and download, every action keeps every store, message, request and fetch genuine for what was uploaded, and forgets no upload |
| `StorageSystem.EventsAreGenuine` | microservices/storage-node/src/swarm_loop.rs:217-374 | every manifest and shard that reaches a download in such a network is the uploaded one |
| `StorageSystem.Projects` | microservices/storage-node/src/swarm_loop.rs:217-570 | a run of the network, seen from one peer, is a run of its fetch machine |
| `StorageSystem.GivenIsUploadedIff` | microservices/storage-node/src/swarm_loop.rs:350-552 | in every run of the network a caller given data is given what was uploaded under the hash exactly if the manifest came before the thirtieth shard |
| `StorageSystem.CarefulCallersGetTheUploads` | microservices/storage-node/src/swarm_loop.rs:350-552 | with callers that wait for fewer than thirty shards to be under way, all data that any caller is ever given is what was uploaded |
| `StorageSystem.NoneOnlyWhenAllTried` | microservices/storage-node/src/swarm_loop.rs:376-407 | in every run of the network, a download that begins with no request for its file under way is told "none", once its manifest is known, only if no shard is missing in the peer's own store, when all 45 answers are in and fewer than 30 are shards |
| `StorageSystem.DownloadGivesTheUpload` | microservices/storage-node/src/swarm_loop.rs:217-552 | upload, then download, in every run of the network: a download that begins with no request for its file under way, the manifest in the peer's store or not, has given what was uploaded, once nothing of it is under way any more, exactly if a manifest was had and at most fifteen shards have failed or were missing in the peer's own store; its other ends are those of `FetchOutcome.DownloadEnds` |
| `StorageExamples.ManifestBeforeShards` | microservices/storage-node/src/swarm_loop.rs:495-540 | a run of the network with careful callers in which no shard is lost and a caller waits for ever: its peer had taken in the manifest before the shards that it names |
| `Crdt.CrdtManager.ProcessLwwMap` | microservices/storage-node/src/crdt.rs:83-129 | exactly if the operation is newer by time and then author, the map's entry becomes its value, time and author, marked deleted exactly by a delete; nothing else changes |
| `Crdt.CrdtManager.ProcessAwOrSet` | microservices/storage-node/src/crdt.rs:131-179 | an add puts its tag, or the one made of its time and author, with its author and time under its value; a remove takes the listed tags away; other values stay; not writing back when nothing was removed loses nothing |
| `Crdt.CrdtManager.ProcessOperation` | microservices/storage-node/src/crdt.rs:56-81 | an operation takes effect, and is logged, exactly if its author may write to the object and the signature verifies over object, key, value and time; otherwise nothing changes; the store keeps no empty tag map |
| `Crdt.SetMeans` | microservices/storage-node/src/crdt.rs:149-169 | the effect of an add and of a remove on a set, tag by tag |
| `Crdt.OnlyOwnersWrite` | microservices/storage-node/src/crdt.rs:44-60 | what is kept under a DID is changed by that DID's operations only |
| `Crdt.ProcessReaches` | microservices/storage-node/src/crdt.rs:83-179 | an operation reaches its own object only, and a change of one type wipes the object's state of the other type |
| `CrdtConvergence.LwwHolds` | microservices/storage-node/src/crdt.rs:95-119 | after any deliveries a key holds the value, time, author and deletion of the first-delivered of its operations that no other beats, and no operation of the key is later, or of the same time and a greater author |
| `CrdtConvergence.StampNeverDecreases` | microservices/storage-node/src/crdt.rs:97-119 | the held stamp never goes back: it stays, or grows in time, or in author at the same time |
| `Strings.FirstDifferenceDecides` | microservices/storage-node/src/crdt.rs:107 | authors compare by their first difference, and a prefix comes first |
| `CrdtConvergence.LwwConvergesIff` | microservices/storage-node/src/crdt.rs:95-119 | replicas given the same operations agree for every order and repetition exactly if no key has two different greatest writes |
| `CrdtConvergence.OrSetHolds` | microservices/storage-node/src/crdt.rs:149-169 | after any deliveries a value is held under a tag exactly if the last operation that touched both was an add, with that add's entry; no value is left without a tag |
| `CrdtConvergence.OrSetIsAddedMinusRemovedIff` | microservices/storage-node/src/crdt.rs:149-169 | the set is added minus removed exactly if each pair both added and removed was removed after its last add |
| `CrdtConvergence.OrSetConverges` | microservices/storage-node/src/crdt.rs:149-169 | two deliveries of the same operations, removes after the adds they list, hold the same set, entries included |
| `CrdtConvergence.OrSetUnorderedIff` | microservices/storage-node/src/crdt.rs:149-169 | with no order at all, replicas agree exactly if no pair is both added and removed |
| `CrdtConvergence.DefaultTagsIdentify` | microservices/storage-node/src/crdt.rs:151 | the tags that the store makes up determine their operation's time and author |
| `CrdtConvergence.StoreRunsTheObject` | microservices/storage-node/src/crdt.rs:56-179 | the stored state of an object used as one type is the run of the operations that were let in for it |
| `CrdtConvergence.ReplicasConverge` | microservices/storage-node/src/crdt.rs:56-179 | whole stores given the same operations, good and bad, agree on such objects |
| `CrdtMixing.NothingForgotten` | microservices/storage-node/src/crdt.rs:83-179 | over every run, an object's state of one type is the run of its own type's operations if no operation of the other type changed the object |
| `CrdtMixing.MapKeptIff` | microservices/storage-node/src/crdt.rs:132-147 | after a change as a set, the object's map is the run of all its map operations exactly if every key written before the last such change has been written since by an operation that beats the one held or writes the same entry |
| `CrdtMixing.SetKeptIff` | microservices/storage-node/src/crdt.rs:83-129 | after a change as a map, the object's set is the run of all its set operations exactly if every pair held before the last such change has been added or removed again since |
| `QuotaSafety.AdvanceMoves` | microservices/storage-node/src/quota.rs:79-100 | where no counter can pass 64 bits, an atomic step moves a counter and the share of its call together, within the limit, and neither clamps nor wraps |
| `QuotaSafety.AlwaysExact` | microservices/storage-node/src/quota.rs:79-232 | so under every interleaving each counter is the sum of the reservations on it and within its limit |
| `QuotaSafety.GlobalAtMostUsers` | microservices/storage-node/src/quota.rs:185-232 | the global counter never exceeds the users' counters together, and equals them when no call is in progress |
| `QuotaSafety.SubtractsWhole` | microservices/storage-node/src/quota.rs:98-100 | in every reachable state a call about to subtract subtracts what it holds, and the counter has that much |
| `QuotaLimits.ExactIff` | microservices/storage-node/src/quota.rs:81-92 | the counters are exact in every run exactly if the per-user limit is below 2^64 - 1 and the global limit is too, or users can hold nothing |
| `QuotaLimits.UserOverflows` | microservices/storage-node/src/quota.rs:81-92 | a run that takes a user's counter round at a per-user limit of 2^64 - 1 |
| `QuotaLimits.TotalOverflows` | microservices/storage-node/src/quota.rs:81-92 | a run of as many users as it takes that takes the global counter round at a global limit of 2^64 - 1, for every positive per-user limit below |
| `QuotaSafety.AloneReserves` | microservices/storage-node/src/quota.rs:185-209 | a reserving call that runs alone takes effect in one piece, for all 64-bit limits |
| `QuotaSafety.ReservesBoth` | microservices/storage-node/src/quota.rs:185-209 | short of 64 bits that effect is to add to both counters exactly if both limits allow it, and otherwise to leave no trace |
| `QuotaSafety.AloneReleases` | microservices/storage-node/src/quota.rs:229-232 | a releasing call that runs alone takes the size off both counters, stopping at zero |
| `Quota.PerClassQuota.TryReserve` | microservices/storage-node/src/quota.rs:79-95 | the compare-exchange loop, whatever its spurious failures, reserves exactly if the size fits by saturating addition, and then adds in 64 bits |
| `Quota.StorageQuotaManager.CheckAndReserveFor` | microservices/storage-node/src/quota.rs:185-209 | the two-level call has the effect of the call that runs alone: short of 64 bits, both counters grow by the size exactly if both limits allow it, and otherwise neither changes |
| `Quota.StorageQuotaManager.ReleaseFor` | microservices/storage-node/src/quota.rs:229-232 | so has the release: both counters shrink by the size, stopping at zero, and no other user's does |
| `Accounting.Ledger.Credit` | microservices/consensus-node/src/accounting.rs:58-65 | the wallet's balance grows by the amount, no other changes, and the database still mirrors memory |
| `Accounting.Ledger.Debit` | microservices/consensus-node/src/accounting.rs:67-78 | the wallet's balance shrinks exactly if it suffices, and no other changes; a refused debit still makes an entry of zero in memory, which the mirror counts as none |
| `Accounting.Ledger.ReserveStorage` | microservices/consensus-node/src/accounting.rs:88-103 | bytes are reserved exactly if they fit the limit by saturating addition, plain addition short of 64 bits, and the mirror keeps |
| `Accounting.Ledger.ReleaseStorage` | microservices/consensus-node/src/accounting.rs:106-112 | bytes are released, stopping at zero, and the mirror keeps |
| `NameRegistry.NameDb.InsertName` | microservices/consensus-node/src/name_db.rs:74-87 | afterwards the name is the DID's, with no CID, gateways or metadata whatever it had before, and every other name is as it was |
| `NameRegistry.NameDb.InsertGrantClaim` | microservices/consensus-node/src/name_db.rs:265-283 | a second claim for a DID and a grant changes nothing, a first one makes a row with its amount, and no other row is touched |
| `Grants.GrantTable.CreateGrant` | microservices/consensus-node/src/ppor.rs:491-504 | a grant is added exactly if its id is new and its amount positive |
| `Grants.GrantTable.VerifyGrantClaim` | microservices/consensus-node/src/ppor.rs:507-536 | a claim is good, for the grant's amount, exactly if five conditions hold; of several faults the one whose condition is first in order is told |
| `Grants.GrantTable.ExecuteClaim` | microservices/consensus-node/src/ppor.rs:539-555 | a claim adds the DID, one to the count and the amount to the total |
| `Bank.HandleClaim` | microservices/consensus-node/src/swarm_loop.rs:1459-1493 | on the three stores together: exactly if five conditions hold, the claim is recorded, the DID's balance grows by the grant's amount, a row is there, and amount and balance are answered; no other wallet changes; otherwise nothing does |
| `Bank.HandleRegistration` | microservices/consensus-node/src/swarm_loop.rs:176-181 | a name is registered exactly if its fee of 100 can be debited from the DID; no other wallet changes |
| `Bank.GrantsAlwaysSound` | microservices/consensus-node/src/swarm_loop.rs:1459-1493 | over every sequence of commands without a restart, from fresh grants: count = number of claimants, total = amount times count, count within the limit, rows = claimants, and each claimant is paid exactly once |
| `Bank.GrantsSoundIff` | microservices/consensus-node/src/ppor.rs:239 | with restarts, which keep the rows of claims and not the programs: all that holds throughout exactly if no grant is made under an id that has been claimed |
| `Bank.PaidTwice` | microservices/consensus-node/src/name_db.rs:286-293 | a run in which one is: a DID that has a row is paid again |
| `Bank.CreditsConserved` | microservices/consensus-node/src/accounting.rs:35-78 | balances plus debits plus what restarts forget equal credits plus all payouts; without a restart claims issue exactly what the grants record |
| `Bank.WalletConserved` | microservices/consensus-node/src/accounting.rs:58-129 | wallet by wallet, over every sequence of commands: the balance, the debits and fees taken and what restarts lost of it equal the credits to it and the payouts of claims made by it |
| `Bank.BalanceMeans` | microservices/consensus-node/src/accounting.rs:58-129 | what each command does to the balance of each wallet |
| `Snapshot.SortedListUnique` | microservices/consensus-node/src/accounting.rs:147-148 | a set of wallets has one sorted list, so nothing depends on the iteration order |
| `Snapshot.SortKeys` | microservices/consensus-node/src/accounting.rs:147-148 | sorting yields that list |
| `Snapshot.RootUnique` | microservices/consensus-node/src/accounting.rs:218-250 | a balance map has one Merkle root |
| `Snapshot.RootIdentifies` | microservices/consensus-node/src/accounting.rs:218-250 | without collisions among roots, a root belongs to one balance map if the leaves of its wallets tell wallets and amounts apart |
| `Snapshot.AlikeLeavesAlikeRoots` | microservices/consensus-node/src/accounting.rs:155 | they need not: wallets that are not addresses are all taken for address zero, and then stand for each other under one root |
| `Snapshot.GenerateStateSnapshot` | microservices/consensus-node/src/accounting.rs:136-215 | every wallet is listed once, in order, with its balance, and the root is over their leaves; every name once with its DID, CID, gateways and metadata; whatever the iteration order; with epoch, time and signer, and the signature over epoch and root if there is a key |
| `Snapshot.SignedTextIdentifies` | microservices/consensus-node/src/accounting.rs:188-200 | a signed text fixes the epoch and the root |
| `Snapshot.GenerateMerkleRoot` | microservices/consensus-node/src/accounting.rs:218-250 | the root is that of the sorted balances |
| `Snapshot.ReplayFromSnapshot` | microservices/consensus-node/src/replay.rs:15-75 | replay sets the balances and rows that the snapshot lists, and recognises the snapshot's root exactly if it is the root of the result |
| `Snapshot.NamesAlwaysSound` | microservices/consensus-node/src/name_db.rs:74-96 | over every sequence of commands a row has gateways exactly if it has a CID, and those as valid JSON |
| `Snapshot.SnapshotRoundTrip` | microservices/consensus-node/src/replay.rs:15-75 | after any commands, a snapshot replayed into an empty node restores every balance, every name's DID, CID, gateways and metadata, and the Merkle root |
| `Snapshot.ReplayOverwrites` | microservices/consensus-node/src/replay.rs:24-35 | into a node with balances of its own, a snapshot overwrites what it has and leaves the rest; for a root without collisions, the root agrees exactly if there is no rest |
| `Snapshot.ReplayMirrorsIff` | microservices/consensus-node/src/replay.rs:24-35 | replay bypasses the database: the mirror holds afterwards exactly if the snapshot brought nothing new |
| `WorkerPool.EverySchedule` | sdk/typescript/src/modules/storage.ts:111-122 | for every schedule of the ten workers: indices are taken in order, each once, in at most 2n + 10 steps; when all have ended, one was rejected exactly if a request fails, and otherwise every index is done |
| `WorkerPool.StepsShrink` | sdk/typescript/src/modules/storage.ts:115-121 | every step brings the end nearer |
| `Sdk.ConcatChunksFrom` | sdk/typescript/src/modules/storage.ts:94-109 | the chunks from an offset on are non-empty, at most 5 MiB, and together the rest of the file |
| `Sdk.ChunksAre` | sdk/typescript/src/modules/storage.ts:94-109 | chunk i is the i-th 5 MiB of the file, and there are just enough of them |
| `Sdk.UploadedMeans` | sdk/typescript/src/modules/storage.ts:81-142 | what is left at the hash that an upload returns: a small file as it is, and of a larger one a manifest with its name, length, chunk size and the hashes of its chunks in order, each chunk under its hash |
| `Sdk.PrivateUploadedMeans` | sdk/typescript/src/client.ts:37-69 | likewise for a private file, chunk i sealed under the key and its own nonce |
| `Sdk.SmallRoundTripIff` | sdk/typescript/src/modules/storage.ts:89-91 | a file of at most 5 MiB comes back, whatever is uploaded after it and whichever chunk requests fail, exactly if it does not read as a manifest of non-empty chunks whose concatenation is another file |
| `Sdk.EmptyManifestIsMisread` | sdk/typescript/src/modules/storage.ts:181-204 | a printed manifest of no chunks is a file that does not come back |
| `Sdk.LargeRoundTrip` | sdk/typescript/src/modules/storage.ts:124-212 | a larger file comes back exactly if its printed manifest is under 1 MiB and no chunk request fails on both attempts; otherwise the manifest's bytes do |
| `Sdk.PrivateRoundTrip` | sdk/typescript/src/client.ts:37-152 | an encrypted file of any size comes back to the holder of the key exactly if its manifest is under 1 MiB and no chunk request fails on both attempts; otherwise the manifest's bytes put through decryption do |
| `Sdk.ReadableIff` | sdk/typescript/src/client.ts:31-78 | for any grants made before: uploading for nobody lets the owner read the file back and changes nothing for anyone else; uploading for a grantee changes nothing for anybody, the grantee included, because the grant is put down for the DID "unknown"; so a file without earlier grants is read exactly by its owner and exactly if no grantee was named |
| `SdkClient.StorageModule.UploadSingleChunk` | sdk/typescript/src/modules/storage.ts:35-79 | a hash is returned exactly if one of two attempts is kept and answered; data may be left behind by an attempt whose answer was lost |
| `SdkClient.StorageModule.UploadPool` | sdk/typescript/src/modules/storage.ts:111-122 | whichever worker goes on next: the pool fails exactly if some upload and its retry fail; otherwise the hash array is the sequential one and the network has every chunk; in any case nothing but chunks has been put in |
| `SdkClient.StorageModule.DownloadSingleChunk` | sdk/typescript/src/modules/storage.ts:144-174 | the data is returned exactly if it is there and one of two attempts is answered |
| `SdkClient.StorageModule.DownloadPool` | sdk/typescript/src/modules/storage.ts:186-195 | the chunks are those of the hashes in order, or the pool fails exactly if one is absent, does not open, or is not answered on either attempt |
| `SdkClient.StorageModule.Join` | sdk/typescript/src/modules/storage.ts:197-204 | the buffer filled at running offsets is the concatenation |
| `SdkClient.StorageModule.UploadFile` | sdk/typescript/src/modules/storage.ts:81-142 | with every fate of every request: a hash is returned exactly if the file is not empty and every upload succeeds, and then network and hash are those that the round trip is about; what was there before stays |
| `SdkClient.StorageModule.DownloadFile` | sdk/typescript/src/modules/storage.ts:176-213 | with every fate of every request: the method returns what the round trip is about, falling back to the raw data when a chunk fails; it fails exactly if the first request does |
| `SdkClient.StorageModule.UploadPrivateFile` | sdk/typescript/src/client.ts:20-80 | likewise with each chunk encrypted; the file key is wrapped and put down for the uploader's key and DID, or for the grantee's key and the DID "unknown" when one is given; without a wallet, or if the grant is not answered, it fails |
| `SdkClient.StorageModule.DownloadPrivateFile` | sdk/typescript/src/client.ts:106-152 | without a wallet, an answer about access, or a key put down for its DID that it can unwrap, nothing is read; otherwise each chunk is decrypted, falling back to decrypting the whole when one fails |
| `TokenBucket.GrantedIff` | microservices/search-node/main.py:62-88 | on every run with times that do not go back, a call is let through exactly if every window ending now stays within capacity + rate times length |
| `TokenBucket.RunKeepsLevel` | microservices/search-node/main.py:62-88 | the bucket always holds exactly what the tightest window leaves |
| `TokenBucket.TokenBucketRateLimiter.constructor` | microservices/search-node/main.py:48-60 | the configured rates, and 50 a second with as large a burst for every other path |
| `TokenBucket.TokenBucketRateLimiter.Consume` | microservices/search-node/main.py:62-88 | the method decides so, per path, and touches no other path |
| `TextChunks.WordsOfJoin` | microservices/search-node/vector_service.py:211-214 | splitting undoes joining |
| `TextChunks.JoinSplits` | microservices/search-node/vector_service.py:213 | by one blank between words |
| `TextChunks.ChunkTextCovers` | microservices/search-node/vector_service.py:209-214 | the chunks hold the words of the text, all and in order, none more than the limit and only the last fewer; a text within the limit is left as it is, and the pieces of a longer one are joined by blanks |
| `Embeddings.RegroupsToSimple` | microservices/search-node/vector_service.py:231-266 | encoding all chunks flat and cutting up by counts is encoding text by text |
| `Embeddings.SimpleIs` | microservices/search-node/vector_service.py:231-266 | text by text: the chunks of at most 350 words of the cleaned text, each encoded behind "passage: " |
| `Embeddings.BatchIsSimpleIff` | microservices/search-node/vector_service.py:226-266 | for any hits, misses, expiries and evictions the batch is the simple map exactly if the hits were vectors of passages |
| `Embeddings.BatchIsSimpleByWrites` | microservices/search-node/vector_service.py:216-266 | with every entry as its last write left it, exactly if no hit was last written by a query whose vector differs from the passage's |
| `VectorService.LookupsKeep` | microservices/search-node/vector_service.py:124-140 | lookups only ever remove entries, so what is found is what the cache began with |
| `VectorService.WithoutCuts` | microservices/search-node/vector_service.py:124-146 | taking an entry out leaves the others in their order |
| `VectorService.VectorService.CacheEmbGet` | microservices/search-node/vector_service.py:124-140 | an entry is returned exactly if it is live or of the older format without a time, and then becomes the most recent; a dead one goes |
| `VectorService.VectorService.CacheEmbSet` | microservices/search-node/vector_service.py:142-146 | the new entry becomes the most recent, the least recently used go until the size is kept, and the others are unchanged |
| `VectorService.VectorService.GetEmbedding` | microservices/search-node/vector_service.py:216-224 | one text as a query or a passage: what is cached and live under the cleaned text is returned whichever it was; otherwise the text is encoded behind "query: " or "passage: ", as asked, returned and kept |
| `VectorService.VectorService.GetEmbeddingsBatch` | microservices/search-node/vector_service.py:226-266 | over every history of queries, passages and batches: the batch is the cache's vectors for exactly the lookups that find a live entry and the model's passages for the rest, regrouped; from a cache of passages alone it is, text by text and chunk by chunk of 350 words, the encoding behind "passage: "; it is the simple map exactly if no live hit was last written by a query whose vector differs from the passage's |
| `VectorService.QueryThenBatch` | microservices/search-node/vector_service.py:216-266 | a run in which it is not: a search for a text, and then the text in a batch |

## Left out

- Transport: gossip, Kademlia, request-response, HTTP and gRPC are sets of sent messages, pending requests or parameters.
- Cryptography: signatures, SHA-256, Keccak, AES-GCM and ECIES are uninterpreted functions with only the laws needed (a collision-free digest, where it is said a collision-free Merkle root, distinct DIDs of distinct wallets, decryption that undoes encryption, unwrapping that undoes wrapping for the same wallet). Votes carry no checked signature in the code, so that nobody votes under a correct member's name is an assumption.
- Encodings: JSON, protobuf, sled and SQLite are values, maps and encode/decode pairs; the trees of the Merkle library are a function of the leaf list, and a wallet's address is part of the leaf function.
- The Reed-Solomon crate: besides the code itself, that encoding empty shards is an error is assumed of it.
- Clocks: epoch expiry, timeouts and times of day are parameters or explicit steps.
- Agreement by view and sequence: the code keys states by hash alone and detects no conflicts, so no total order is claimed.
- `PporNetwork.Safety`, `PporNetwork.Liveness` and `Confluence.Confluence` fix the committee for the lifetime of a transaction; what a selection in between does is `Epochs.SnapshotsAlwaysIff`.
- An epoch that expires during a transaction: `Ppor.OnEvent`, `Epochs` and `Finalization.AppliesIff` allow it, before every message; the order results of `Confluence`, and `Finalization.AppliedIsFinalIff` with them, are for one epoch.
- The archive of finalized transactions and its clean-up, reputation penalties for timeouts, and the DHT records published with an effect.
- Overflow of reputations and balances: both are unbounded here; the quota counters and the committee scores are not.
- Peers that alter what they were given: the code checks no shard against the hash. `StorageSystem` has peers that copy, lose and withhold only, and uploads without collisions of the digest.
- Manifests with an index of 45 or more, on which the code would panic, and peer ids that do not parse, which it skips.
- `do_self_healing`, which repeats a decode that has just failed, and `query_to_fetch`, a table that nothing fills.
- `StorageNode.EventLoop.Upload`: how full the store is, is one flag; limits on the size of a record are not modelled.
- Which quota call the upload handler makes: it reserves globally on the node and per user on a consensus node; the two-level calls of `quota.rs` are modelled as they stand.
- Public keys and timestamps of names, which a snapshot does not carry; checking the signature of a snapshot, which replay does not do; replay from single DHT records.
- The file `crdt.rs` stands by itself, not yet called by the node. Its log is written but never read back, in the code as here; `get_state` only reads.
- Search indexing after a private upload, and which node a retry goes to.
- Turning strings into UTF-8 bytes, and the regular expressions of the text clean-up, which are one uninterpreted function.
- Floating point: tokens, times and vectors are reals.
- The crawler, the vector index, routing, clustering, the user interfaces and the twins of this code in other languages.
