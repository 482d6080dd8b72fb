# A verified model of the CKB light client

The light client follows a chain it does not download. It asks peers to prove their last header by
sampled headers and a Merkle mountain range (FlyClient, IACR ePrint 2019/226, and CKB RFC 44), lets a
quorum of proved peers agree on block filter hashes (CKB RFC 45), checks block filters against those
hashes, downloads the blocks whose filters match, and keeps an index of the cells and the history of
registered scripts. This project models those parts in Dafny and proves what they are meant to keep.

Each message handler is one atomic step. State that the program updates in place is a class whose
methods carry the step out and are proved against functions on values; the laws are lemmas about those
functions and about runs of steps.

| file | what it models |
|---|---|
| `Arithmetic`, `Options`, `Bytes` | products, quotients, powers and sums; byte strings in the order of the database |
| `EpochDifficulty`, `HonestChains`, `TotalDifficulty` | how far difficulty may move between epochs, and which epoch difficulties the limits let through |
| `BlockChains`, `HeaderChains` | chains of blocks and of hash-linked headers: what they gain, and which of them are accepted |
| `Samples`, `Sampling` | the difficulties a request samples, and matching a response against it |
| `LightHeaders`, `LastStateProof` | headers, chain roots, and all checks of a proof of a last state |
| `PeerStates`, `LightClient` | the seven states of a peer, and the handlers that move peers and the stored tip |
| `Provenance`, `ProofAnswers`, `PeerProgress` | over runs: where proved states, requests and the tip come from, what was checked, and what the handlers bring about |
| `Quorum`, `CheckPoints`, `FilterHashes`, `FilterSync` | agreement of a quorum, check points, windows of filter hashes, checking filters |
| `Truthful` | what the quorum is for: fewer than a quorum of liars cannot get a false check point stored |
| `MatchedBlocks`, `BatchProgress`, `Scheduling` | stored batches and their mirror in memory, what script numbers promise, and handing out proof and download requests |
| `Forks` | the fork point, and what committing a fork leaves of the index |
| `Keys`, `Formats` | key encoding, the scans over keys, and the stored bytes |
| `Chain`, `Index`, `FilterProofs`, `BlockHeaders` | replay of the chain, the index, and the headers of matched blocks |
| `Refiltering` | filtering where an earlier rollback has left transactions behind |
| `RollbackScan`, `Rollback`, `RollbackProofs` | rolling the index back, from the scan over bytes on |
| `IndexRuns` | runs of the client together with its storage: drains, forks and the registration of scripts |
| `Pagination`, `GroupedPages`, `GroupSplits` | paged queries over the index |

Proof of work, hashing, the verification of a position in the mountain range, Golomb-coded-set matching
and the decoding of compact targets are parameters; injectivity of a hash is assumed only where a
contract says so. Difficulties are natural numbers with the 256-bit bound written out. The release
profile checks integer overflow (`Cargo.toml`), so an overflow, a slice beyond the end of a list, an
`expect` and an `assert!` are outcomes of their own (`Panic`, `Crash`) or are proved not to happen.

Eight promises turned out to hold only under a condition; each has its exact condition and a counterexample:

* The total-difficulty limits refuse some honest chains. For tau = 2 the epoch difficulties 100, 200, 400, 400,
  200 change by at most a factor of two per epoch but exceed the upper limit of 800 (`RefusedExample`), and 200,
  100, 50, 50, 100 stay below the lower limit of 250 (`RefusedBelowExample`). The limits accept every honest
  chain exactly in the cases of `UpperLimitExact` and `LowerLimitExact`.
* The greedy quorum search finds the longest prefix that some quorum shares exactly if fewer than two
  quorums of peers are counted (`ExactBelowTwoQuorums`, with the counterexample `LaggingIsNotExact`).
* A descending query misses the keys that go on behind its padded start key, and only those
  (`DescendingIsLossless`, `DescendingLosesExample`).
* A rollback leaves transaction records behind, and filtering looks a spent output up there first. A transaction
  that comes back at another position and is spent in its own block leaves its spent cell live (`MisledExample`).
  Filtering refines the replay exactly if the lookups recognise the spends and hit the cells that the chain has
  (`RefilteringIsExact`), and that is exactly if no input is misled (`RefiltersExactlyUnlessMisled`), apart from
  misled inputs that make up for each other by swapped places (`SwapExample`).
* A rollback passes over a script whose number lies below its target. Every rollback restores the index exactly if
  no number lies below a block indexed for its script (`CoveredIsExact`). All steps keep that up, except for
  a script that is registered again with a number below its history (`CoveredExactly`, `RegisteredAgainExample`).
* A batch that starts at or below a fork stays, also where it reaches above the fork; its drain can then take the
  scripts past the filtered number (`BatchAboveForkExample`). No batch reaches above the fork exactly if none
  of those that start up to it does (`ForkLeavesNoneAbove`).
* A rollback sets script numbers to the first block that it removes, but the filtered number below it; scripts that
  are registered before that block is filtered again make filtering pass over it (`PassedOverExample`). Numbers cover
  filtered blocks only, exactly if no script had come as far as the target and no batch that stays reaches on
  (`ForkIsHonest`).
* Filters without a hit raise the scripts past batches that wait, while memory is empty (`SkippedBatchExample`).
  Numbers stay honest exactly if that does not happen (`OthersStayHonest`); then all blocks found up to a raised
  number have been handed on (`NumberIsKept`).

More properties of the code show in the contracts, each with an input that shows it. Hash messages that
agree with a window but end before its last hash make an unguarded slice fail (`UpdateLatest` and `UpdateCache`,
`LatestEndsEarlyExample` and `CacheEndsEarlyExample`), and so does a proof that consists of reorg headers alone
when nothing was proved before (`Assemble`, `ReorgAloneExample`). A boundary among the reorg headers makes the count
of sampled headers underflow (`CheckIfResponseIsMatched`, `CountUnderflowsExample`). Filters that start behind the
last known hash of a cached window that is not complete make a slice fail (`Verdict`, `FiltersPanicExample`).
Grouped pages may split a transaction whose cells are interrupted by an entry of another one, and only such a
transaction (`SplitExactlyIfInterrupted`, `SplitExample`).

## Model

| member | source | states |
|---|---|---|
| EpochDifficulty.CheckTau | src/protocols/light_client/components/send_last_state_proof.rs:393-426 | the loop over saturating 256-bit products and floor quotients decides the tau rule over true integers |
| EpochDifficulty.CalculateTauExponent | src/protocols/light_client/components/send_last_state_proof.rs:438-464 | an exponent is found if and only if the tau check passes, and then the end lies beyond k factors of tau but within k + 1 |
| EpochDifficulty.TauExponentUnique | src/protocols/light_client/components/send_last_state_proof.rs:438-464 | a trend has at most one tau exponent |
| EpochDifficulty.TauRuleHasExponent | src/protocols/light_client/components/send_last_state_proof.rs:393-464 | whenever the tau rule holds over n switches there is an exponent below n |
| EpochDifficulty.SplitEpochs | src/protocols/light_client/components/send_last_state_proof.rs:476-524 | the groups total the number of switches and move towards the extreme first; the one that moves with the trend gets the k epochs the trend needs, the others are shared evenly, an odd one first |
| EpochDifficulty.RemoveLastEpoch | src/protocols/light_client/components/send_last_state_proof.rs:641-654 | takes exactly one epoch away and keeps both directions |
| EpochDifficulty.CheckTotalDifficultyLimit | src/protocols/light_client/components/send_last_state_proof.rs:528-622 | the early exits decide what the full sum of the extreme epochs decides over true integers; it panics exactly where a sum that has not come to the gain yet does not fit 256 bits |
| EpochDifficulty.EarlyExitRefinesFullSum | src/protocols/light_client/components/send_last_state_proof.rs:528-622 | with positive unaligned difficulty the early exits equal one comparison after summing; without, they differ in exactly one case |
| HonestChains.HonestObeysTauRule | src/protocols/light_client/components/send_last_state_proof.rs:393-426 | the end points of an honest chain obey the tau rule |
| HonestChains.HonestWithinUpper | src/protocols/light_client/components/send_last_state_proof.rs:476-622 | in the safe cases the interior of every honest chain stays within the upper sum |
| HonestChains.HonestWithinLower | src/protocols/light_client/components/send_last_state_proof.rs:476-622 | in the safe cases the interior of every honest chain reaches the lower sum |
| HonestChains.UpperLimitExact | src/protocols/light_client/components/send_last_state_proof.rs:476-622 | the upper limit admits all honest chains between two epochs if and only if difficulty did not rise, or n - k is odd, or it is two |
| HonestChains.LowerLimitExact | src/protocols/light_client/components/send_last_state_proof.rs:476-622 | the lower limit admits all honest chains if and only if it is a safe case or the lightest chain, in closed form, reaches the sum |
| TotalDifficulty.VerifyTau | src/protocols/light_client/components/send_last_state_proof.rs:951-976 | same epoch: same target; later epoch: the tau rule on epoch difficulties; otherwise the arithmetic fails |
| TotalDifficulty.VerifyTotalDifficulty | src/protocols/light_client/components/send_last_state_proof.rs:978-1076 | on epochs that fit, a gain is accepted exactly if it is plausible; the panics are exact: epochs out of order or beyond their length, and products or sums beyond 256 bits, where the gain was not refused before |
| BlockChains.ChainGains | src/protocols/light_client/components/send_last_state_proof.rs:997-1043 | what a chain of blocks gains, block by block, is the product within one epoch, and otherwise the rest of the first epoch, all interior epochs and the begin of the last one |
| BlockChains.ShortChainIsAccepted | src/protocols/light_client/components/send_last_state_proof.rs:998-1060 | every honest chain of blocks with at most one epoch switch is accepted and computable, whatever its length |
| BlockChains.HonestChainIsPlausible | src/protocols/light_client/components/send_last_state_proof.rs:1017-1072 | an honest chain of blocks over two or more switches has a tau exponent, and is accepted unless its end points are outside the condition |
| BlockChains.SomeHonestChainIsRefused | src/protocols/light_client/components/send_last_state_proof.rs:1017-1072 | outside that condition some honest chain of blocks between blocks like the given ones is refused |
| BlockChains.ChainExists | src/protocols/light_client/components/send_last_state_proof.rs:997-1043 | any epoch difficulties between two blocks are those of some chain of blocks |
| HeaderChains.HeadersAreBlocks | src/protocols/light_client/prelude.rs:39-45 | headers that pass the check of parent and child, with chain roots that tell their totals, are blocks of a chain |
| HeaderChains.HonestHeadersObeyTau | src/protocols/light_client/components/send_last_state_proof.rs:951-976 | the tau rule holds between the first and the last header of an honest chain of headers |
| HeaderChains.HonestGainIsAccepted | src/protocols/light_client/components/send_last_state_proof.rs:978-1075 | what an honest chain of headers gains since the previous proof is accepted: over one switch always, over more within the condition |
| TotalDifficulty.RefusedExample | src/protocols/light_client/components/send_last_state_proof.rs:1017-1072 | 100, 200, 400, 400, 200 is honest for tau = 2, has interior 1000 and upper sum 800 |
| TotalDifficulty.RefusedBelowExample | src/protocols/light_client/components/send_last_state_proof.rs:1017-1072 | 200, 100, 50, 50, 100 is honest for tau = 2, has interior 200 and lower sum 250 |
| Samples.MatchSamples | src/protocols/light_client/components/send_last_state_proof.rs:779-871 | for sorted requests acceptance means coverage: every sampled interval holds a request, and every request below the last headers lies in a sampled interval or the first last one; refusal means no coverage when intervals are ordered |
| Samples.SpendOn | src/protocols/light_client/components/send_last_state_proof.rs:797-842 | a header answers exactly the leading requests inside its interval |
| Samples.CheckIfResponseIsMatched | src/protocols/light_client/components/send_last_state_proof.rs:690-875 | a matched response has the reorg, sample and last-n shape of its request and its samples are answered; with ordered totals a refused one fits no split; the count underflows exactly if the boundary lies among the reorg headers |
| Samples.CountUnderflowsExample | src/protocols/light_client/components/send_last_state_proof.rs:748-759 | three headers, the first one a reorg header that reaches the boundary, make the count underflow |
| Samples.CheckReorg | src/protocols/light_client/components/send_last_state_proof.rs:713-747 | finds the only number of reorg headers there can be: all below the start, n of them or from block 1, ending right before the start |
| Sampling.MultiplyIsShare | src/protocols/light_client/sampling.rs:26-37 | a share by a ratio of at most one is positive and no larger than the number, or one |
| Sampling.MultiplyIsFloor | src/protocols/light_client/sampling.rs:31-41 | a share is the product rounded down, and 1 where that is 0 |
| Sampling.SampleIsShare | src/protocols/light_client/sampling.rs:70-77 | a sample lies a share of the range behind the start, or right below the boundary if that is less far |
| Sampling.Sample | src/protocols/light_client/sampling.rs:68-84 | exactly the samples drawn, from the start on, below the boundary, and above the start if there is room |
| Sampling.SampleBlocks | src/protocols/light_client/sampling.rs:88-126 | the boundary is a share of the gained difficulty behind the start; the difficulties are the distinct samples below it, in ascending order |
| Sampling.EstimateSamplesCount | src/protocols/light_client/sampling.rs:157-189 | no samples exactly if the blocks fit the last n; samples and last n never exceed the blocks |
| LightHeaders.RootDeterminedIffActive | src/protocols/light_client/peers.rs:2007-2023 | headers that count as the same, their total difficulty included, share the whole chain root if and only if the epoch already has chain roots |
| LightHeaders.SameRoot | src/protocols/light_client/prelude.rs:54-86 | validity ties the chain root to the compared extension |
| LightHeaders.HeaderDeterminesRoot | src/protocols/light_client/prelude.rs:55-85 | with injective hashes a valid header determines its uncles, its extension and, from the activation on, its whole chain root |
| LightHeaders.HasRootIsLater | src/protocols/light_client/prelude.rs:56-57 | chain roots exist where the epoch, as a fraction, is later than the activation epoch |
| LightHeaders.CheckContinuous | src/protocols/light_client/components/send_last_state_proof.rs:1078-1096 | succeeds exactly if every header is the parent of the next |
| LightHeaders.LinkedJoin | src/protocols/light_client/prelude.rs:40-44 | linked parts that meet in a parent and its child are linked |
| LastStateProof.Assemble | src/protocols/light_client/components/send_last_state_proof.rs:215-295 | whatever branch is taken, the list is the last n of the headers known before followed by the new ones; it is refused or runs past the end only without a previous proof |
| LastStateProof.LastHeadersAreLinked | src/protocols/light_client/components/send_last_state_proof.rs:151-157 | the list is hash-linked, the unchecked join to an earlier proof aside |
| LastStateProof.CheckTauOf | src/protocols/light_client/components/send_last_state_proof.rs:123-149 | the tau rule holds between the first and the last new header, unless it is skipped or nothing was sampled; a wrong target and a panic are told apart exactly |
| LastStateProof.CheckGain | src/protocols/light_client/components/send_last_state_proof.rs:167-188 | the difficulty gained since the previous proof is plausible whenever headers were sampled |
| LastStateProof.CheckMatched | src/protocols/light_client/components/send_last_state_proof.rs:112-188 | every outcome is exact: passed, failed by the tau rule alone, failed by another check, and panicked before another check refused |
| LastStateProof.Verify | src/protocols/light_client/components/send_last_state_proof.rs:96-313 | only a message that passes every check proves a state, a recheck is due exactly to the tau rule, a refused message with ordered totals fails some check, and the ways in which a message ends the run are exact |
| LastStateProof.ReorgAloneExample | src/protocols/light_client/components/send_last_state_proof.rs:251-275 | a valid message of block 1 alone, for a request from block 2 on, passes every check and ends the run |
| Provenance.StepOrigin | src/protocols/light_client/mod.rs:192-410 | what a peer holds after a step it held before, earned in the step, or copied from a peer that held it and whose proof is of its own claimed last state |
| Provenance.ProvedStatesAreTraced | src/protocols/light_client/peers.rs:1351-1395 | in every run each proved state goes back, from peer to peer by copies, to a step at which the first of them earned it |
| Provenance.StepPuts | src/protocols/light_client/mod.rs:192-255 | what a peer is awaited to answer after a step it was awaited to answer before, or the step put to it: plainly, once more without the tau rule, or from the genesis block on |
| Provenance.RequestsArePut | src/protocols/light_client/peers.rs:974-1020 | in every run an awaited request was put to that very peer at an earlier step and awaited ever since |
| Provenance.RunHasProvenance | src/protocols/light_client/components/send_last_state_proof.rs:44-350 | in every run the step that earned a state received either a message that answers the peer's own standing request and passes every check against what the peer held then, or a last state that is the checked child of it |
| Provenance.EarnedIsWorked | src/protocols/light_client/peers.rs:364-392 | work stands behind all headers of a state that is earned, and its list stays within the last n |
| Provenance.NextKeepsSound | src/protocols/light_client/components/send_last_state.rs:30-98 | every step keeps all last states, requests and proved states checked |
| Provenance.ProvedStatesAreWorked | src/protocols/light_client/peers.rs:378-392 | in every run all headers of every proved state carry valid work and the list never exceeds the last n |
| Provenance.AnswersAreCovered | src/protocols/light_client/components/send_last_state_proof.rs:96-103 | in every run a message by which a peer earns a state answers every sample of the peer's request |
| Provenance.PutAsks | src/protocols/light_client/mod.rs:801-909 | a request starts at what the peer has proved, the tip or the genesis block, and is ahead of it; over more than n blocks it asks for the samples of its step, over fewer for none |
| Provenance.DrawnSamplesAreAnswered | src/protocols/light_client/mod.rs:856-868 | over any run an answer with samples covers the very samples that were drawn when the request was put |
| Provenance.ShortAnswersAreComplete | src/protocols/light_client/mod.rs:844-855 | over any run an answer over at most n blocks has no samples and holds every block from the start of the request to the last state |
| Provenance.ChildrenRemember | src/protocols/light_client/peers.rs:364-392 | a child keeps the reorg headers; its list is the newest n of the parent's list and last header, and leads up to the child if the parent's did |
| ProofAnswers.AnswersArePlausible | src/protocols/light_client/components/send_last_state_proof.rs:96-313 | an answer that earns a state obeys the tau rule unless it is waived, gains a plausible difficulty, and does not confirm a long fork |
| ProofAnswers.RecheckOnce | src/protocols/light_client/components/send_last_state_proof.rs:123-213 | the tau rule is waived at most once |
| ProofAnswers.ReorgIsBelowStart | src/protocols/light_client/components/send_last_state_proof.rs:713-747 | the reorg headers of an earned state are the message's headers below the start, consecutive up to it, n of them or from block 1 on |
| ProofAnswers.NoReorgIsNoneBelow | src/protocols/light_client/components/send_last_state_proof.rs:713-747 | a state without reorg headers comes from a message without headers below the start |
| ProofAnswers.ListIsNewest | src/protocols/light_client/components/send_last_state_proof.rs:215-302 | the list of an earned state is the newest n of what was known before, or of the reorg headers instead, and the message's last headers |
| Provenance.EarnedRootVouches | src/protocols/light_client/components/send_last_state_proof.rs:159-165 | the chain root of an earned state is the one that vouched for the message's headers |
| Provenance.TipOnlyGrows | src/protocols/light_client/mod.rs:315-410 | over any run the stored tip never loses total difficulty |
| Provenance.TipIsEarned | src/protocols/light_client/mod.rs:315-410 | the stored tip is the one a run began with, or some peer earned it at an earlier step |
| PeerProgress.AskingKeeps | src/protocols/light_client/peers.rs:914-937 | asking for a last state is rejected exactly while something is outstanding, and otherwise keeps what is known |
| PeerProgress.ReceivingKeeps | src/protocols/light_client/peers.rs:939-972 | a last state replaces the old one and nothing else |
| PeerProgress.PuttingKeeps | src/protocols/light_client/peers.rs:974-1020 | a request replaces an earlier one and nothing else, and is rejected exactly where no last state is known or one is owed |
| PeerProgress.ProvingKeeps | src/protocols/light_client/peers.rs:1022-1039 | a proved state replaces the old one and settles the request |
| PeerProgress.AskingSettles | src/protocols/light_client/mod.rs:192-255 | asking for a proof leaves the last state proved, asked for, or not ahead of the start; only what was not settled is asked for |
| PeerProgress.EarnedIsHeld | src/protocols/light_client/mod.rs:313-410 | an earned state is held, unless it is a long fork |
| PeerProgress.EarnedMovesTip | src/protocols/light_client/mod.rs:401-409 | a heavier earned state that is held becomes the tip, and its list the stored last headers |
| PeerProgress.RecheckIsAsked | src/protocols/light_client/components/send_last_state_proof.rs:191-213 | a proof that fails the tau rule alone is asked for once more without it |
| PeerProgress.RefusedOrCrashed | src/protocols/light_client/components/send_last_state_proof.rs:96-313 | a refused answer changes nothing, a panic loses exactly what is in memory |
| PeerProgress.PeersComeAndGo | src/protocols/light_client/peers.rs:1351-1395 | a rejected transition leaves the peer as if just connected |
| PeerProgress.ProofIsKept | src/protocols/light_client/peers.rs:914-1039 | a proved state stays or is replaced, except by the steps named |
| LightClient.Protocol.Put | src/protocols/light_client/peers.rs:1351-1395 | a rejected transition has already taken the state away and leaves the peer initialised |
| LightClient.FindFirstFit | src/protocols/light_client/mod.rs:844-850 | the loop finds the first stored header below the start within n blocks of the last one |
| PeerStates.FirstFitIsFirst | src/protocols/light_client/mod.rs:847-850 | the first stored header that lies below the start and at most n blocks below the last state, or else the start |
| PeerStates.NewChildAppends | src/protocols/light_client/peers.rs:364-392 | the child's list is the newest n of the parent's list with its last header behind it |
| PeerStates.NewChildIsLinked | src/protocols/light_client/peers.rs:364-392 | if the parent's list leads up to its last header, the child's list leads up to the child |
| LightClient.Protocol.FindProved | src/protocols/light_client/peers.rs:1950-1964 | finds a peer that has proved the header, exactly if there is one |
| LightClient.Protocol.Connected | src/protocols/light_client/mod.rs:83-97 | a new peer forgets whatever was known under its index and is asked for its last state |
| LightClient.Protocol.GetLastStateProof | src/protocols/light_client/mod.rs:192-255 | carries out the ask-proof step, for some choice of the peer to copy from |
| LightClient.Protocol.SendLastState | src/protocols/light_client/components/send_last_state.rs:30-98 | carries out the last-state step |
| LightClient.Protocol.CommitProveState | src/protocols/light_client/mod.rs:335-410 | `false` exactly for a long fork, which changes nothing; else tip and peer move together |
| LightClient.Protocol.SendLastStateProof | src/protocols/light_client/components/send_last_state_proof.rs:44-350 | carries out the proof step with a verdict that verifying the message gives |
| Quorum.GreedyPrefix | src/protocols/light_client/peers.rs:1794-1839 | the loop ends with a prefix that a quorum holds in full and that cannot be extended, or has the quorum-th smallest length; the peers kept are its holders |
| Quorum.GreedyIsLongest | src/protocols/light_client/mod.rs:629-678 | below two quorums the outcome extends every prefix that some quorum shares |
| Quorum.GreedyIsDeterministic | src/protocols/light_client/mod.rs:629-678 | below two quorums the outcome does not depend on map iteration order |
| Quorum.ExactBelowTwoQuorums | src/protocols/light_client/mod.rs:629-678 | the search is exact for all families of n lists if and only if n is below two quorums |
| CheckPoints.FinalizeKeepsInv | src/protocols/light_client/mod.rs:531-692 | stored check points stay contiguous from index 0 and peers' lists start no later than the last one |
| CheckPoints.FinalizeOnlyAppends | src/storage.rs:629-639 | finalising never rewrites a stored check point |
| CheckPoints.FinalizedHasQuorum | src/protocols/light_client/mod.rs:566-691 | all check points newly finalised are held, together with the previous last one, by one quorum of proved peers |
| CheckPoints.FinalizeIsExact | src/protocols/light_client/mod.rs:629-691 | below two quorums whatever some quorum shares gets stored |
| CheckPoints.RunOnlyAppends | src/storage.rs:617-639 | over any run stored check points stay contiguous and are never rewritten |
| CheckPoints.StoredWonQuorum | src/protocols/light_client/mod.rs:566-691 | every check point stored during a run was at some step held by a quorum of proved peers, with the value it still has |
| CheckPoints.AddedPoints | src/protocols/light_client/peers.rs:558-610 | an accepted message carries the list on by its own check points, by all of them exactly if a whole interval behind the last one is proved |
| CheckPoints.NextWantedIsUseful | src/protocols/light_client/peers.rs:554-557 | more check points are asked for exactly where an answer with just the next one would carry the list on |
| CheckPoints.CountedPeers | src/protocols/light_client/peers.rs:1922-1936 | a peer counts from being proved until it is not, goes, or comes anew |
| Truthful.TruePointsAreTaken | src/protocols/light_client/peers.rs:558-610 | true check points from the last known one on are accepted, and the peer stays true |
| Truthful.TruePeersCount | src/protocols/light_client/mod.rs:566-615 | a proved, true peer counts exactly if its list reaches the true last finalised check point |
| Truthful.TrimmedStaysTrue | src/protocols/light_client/peers.rs:612-616 | dropping finalised check points leaves the others at their indices |
| Truthful.FinalizingStaysTrue | src/protocols/light_client/mod.rs:531-692 | with fewer than a quorum of liars connected, finalising stores true check points only |
| Truthful.TrueQuorumFinalizes | src/protocols/light_client/mod.rs:531-692 | below two quorums, what a quorum of true peers has sent is finalised |
| Truthful.RunStaysTrue | src/protocols/light_client/mod.rs:531-692 | over any run with fewer than a quorum of liars connected at a time, all finalised check points are those of the chain |
| FilterHashes.UpdateLatest | src/protocols/light_client/peers.rs:655-773 | taken in exactly if anchored, agreeing, in the window and not ending early; then the known hashes stay a prefix, the rest is the message's, up to the proved number |
| FilterHashes.UpdateCache | src/protocols/filter/components/block_filter_hashes_process.rs:96-186 | the same for the cached window, which never leaves its interval |
| FilterHashes.LatestEndsEarlyExample | src/protocols/light_client/peers.rs:765-766 | two hashes are taken in; the first of them sent once more is acceptable and makes the slice fail |
| FilterHashes.CacheEndsEarlyExample | src/protocols/filter/components/block_filter_hashes_process.rs:172-184 | the same for the cached window |
| FilterHashes.AcceptableIsConsistent | src/protocols/light_client/peers.rs:655-773 | a message is acceptable exactly if it fits the window and says of every known block, check point included, what is known of it |
| FilterHashes.CacheAcceptableIsConsistent | src/protocols/filter/components/block_filter_hashes_process.rs:96-186 | the same for the cached window, and past its end it repeats the next check point |
| Truthful.TrueHashesAreTaken | src/protocols/light_client/peers.rs:655-773 | true hashes that fit the window of a true peer are acceptable |
| Truthful.TrueHashesStay | src/protocols/light_client/peers.rs:655-773 | true hashes stay true as a window grows |
| Truthful.LatestIsTrue | src/protocols/light_client/peers.rs:1772-1840 | with fewer than a quorum of liars connected the latest hashes are those of the chain |
| Truthful.TakenFiltersAreTrue | src/protocols/filter/components/block_filters_process.rs:188-209 | filters taken against true hashes have the hashes of the chain |
| FilterHashes.AlignedWindows | src/protocols/light_client/peers.rs:751-765 | comparing aligned slices pairwise decides agreement of two windows on every block they share |
| FilterSync.LatestHasQuorum | src/protocols/light_client/peers.rs:1772-1840 | latest filter hashes are held from the first to the last by one quorum of proved peers |
| FilterSync.LatestIsDetermined | src/protocols/light_client/peers.rs:1772-1840 | below two quorums asking twice gives one answer |
| FilterSync.BehindFinalized | src/protocols/light_client/peers.rs:1168-1180 | the cached interval of the next block lies behind the finalised check point exactly if the block does, and holds it |
| FilterSync.RequestMakesProgress | src/protocols/light_client/peers.rs:1842-1866 | where filters may be requested, a non-empty message from the next block leaves no list, is taken if and only if its hashes chain to the known ones, and then consumes at least one filter |
| FilterSync.NoRequestNoProgress | src/protocols/light_client/peers.rs:1842-1866 | behind the last check point, where filters may not be requested none would be consumed |
| FilterSync.RequestNeedsInterval | src/protocols/light_client/peers.rs:1842-1866 | up to the last check point, filters may be requested exactly if all hashes of the block's interval are known |
| FilterSync.ToCacheIsInterval | src/protocols/filter/components/block_filter_hashes_process.rs:96-120 | a message belongs to the cache if its first block lies in the cached interval |
| FilterSync.NextHashesFollow | src/protocols/filter/components/block_filter_hashes_process.rs:160-230 | the next hashes are asked for from the block right behind the grown window, exactly while it has room |
| FilterSync.EndsEarlyExactly | src/protocols/filter/components/block_filter_hashes_process.rs:96-186 | a message that fits has a grown window to lead to, exactly if it does not end before what is known |
| FilterSync.WindowIsStored | src/protocols/filter/components/block_filter_hashes_process.rs:96-120 | both check points around the cached window exist when they are read |
| FilterSync.ChainMatches | src/protocols/filter/components/block_filters_process.rs:188-209 | the loop succeeds exactly if the chained hashes and the expected ones agree as far as both go |
| FilterSync.FilterClient.AddCheckPoints | src/protocols/light_client/peers.rs:558-610 | takes exactly the messages that continue the peer's list, and keeps the last check point back unless a whole interval behind it is proved |
| FilterSync.FilterClient.Finalize | src/protocols/light_client/mod.rs:531-692 | the loops carry out a finalising step |
| FilterSync.FilterClient.ReceiveHashes | src/protocols/filter/components/block_filter_hashes_process.rs:32-247 | fitting messages grow one window and leave all else; everything else changes nothing |
| FilterSync.FilterClient.LatestHashes | src/protocols/light_client/peers.rs:1772-1840 | the hashes a quorum agrees on behind the last check point, or none without a quorum |
| FilterSync.FilterClient.MayRequestMore | src/protocols/light_client/peers.rs:1842-1866 | decides whether filters may be requested, in terms of the latest or the cached hashes |
| FilterSync.FilterClient.UpdateMinFiltered | src/protocols/light_client/peers.rs:1650-1660 | the cache is kept exactly while the next block stays in its interval |
| FilterSync.FilterClient.SelectHashes | src/protocols/filter/components/block_filters_process.rs:104-186 | both branches select the hash before the first filter and the known ones from it on |
| FilterSync.FilterClient.CheckFilters | src/protocols/filter/components/block_filters_process.rs:35-255 | the verdict on the message, and exactly as many blocks filtered as filters checked |
| FilterSync.FiltersPanicExample | src/protocols/filter/components/block_filters_process.rs:157-160 | with one hash known of an interval of ten and four blocks filtered, filters from block 5 on lead to an index beyond the end, and to nothing else |
| FilterSync.FiltersPanicExactly | src/protocols/filter/components/block_filters_process.rs:130-160 | an index goes beyond the end exactly if some hashes of the interval are known, but not the one before the first filter |
| MatchedBlocks.NextKeepsInv | src/protocols/synchronizer.rs:69-117 | every step keeps the mirror: memory is empty or holds the earliest batch, batches start at filtered blocks from 1 on, downloads are proved and stored under their own hash |
| MatchedBlocks.DrainIsSafe | src/protocols/synchronizer.rs:75-99 | when a block completes a batch, the `expect` and both assertions hold |
| MatchedBlocks.TipNeverDecreases | src/protocols/light_client/mod.rs:315-410 | over any run of steps the tip keeps its total difficulty |
| MatchedBlocks.SetScriptsStartsOver | src/storage.rs:272-373 | exactly the scripts that the command asks for are registered, all batches are gone, and filtering starts over from the least number |
| MatchedBlocks.ProvedIsEarned | src/protocols/light_client/peers.rs:1454-1474 | a block counts as proved exactly if its batch was stored so or a step has proved it since |
| MatchedBlocks.RefilledUnlessNothing | src/protocols/synchronizer.rs:101-117 | a step that refills memory leaves it empty only if nothing is stored |
| MatchedBlocks.CommitWithoutReorg | src/protocols/light_client/mod.rs:342-360 | without reorg headers a tip that follows block 1 takes everything back to the start, any other changes no progress |
| BatchProgress.HitsAreConserved | src/protocols/filter/components/block_filters_process.rs:218-255 | what waits or is found in a step waits afterwards or is handed on to filtering |
| BatchProgress.NothingIsLost | src/protocols/synchronizer.rs:69-117 | over any run that does not start over, every block found to match still waits or was handed on |
| BatchProgress.RegisteringIsHonest | src/storage.rs:272-373 | where registering scripts starts over, numbers are as given and nothing waits |
| BatchProgress.OthersStayHonest | src/protocols/filter/components/block_filters_process.rs:245-250 | numbers cover no unfiltered block and no waiting batch, exactly unless filters without a hit are taken while memory is empty and batches wait |
| BatchProgress.NumberIsKept | src/storage.rs:641-660 | from the registration on, all blocks found up to a raised number have been handed on to filtering |
| BatchProgress.SkippedBatchExample | src/protocols/filter/components/block_filters_process.rs:245-250 | after a restart a batch of the blocks 1 to 5 waits, and filters without a hit take the script to block 8 |
| BatchProgress.ForkIsHonest | src/storage.rs:991-1013 | after a fork numbers are honest exactly if no script had come as far as the target, and no batch that stays reaches on |
| BatchProgress.PassedOverExample | src/storage.rs:991-1013 | a fork at 5 sets a script to 6 and the filtered number to 5, and registering another script passes over block 6 |
| Forks.ForkIsExact | src/protocols/light_client/mod.rs:361-375 | for hash-linked lists the fork number is the highest common block, all lower overlapping blocks agree, and none is found exactly if none is common |
| Forks.CommitRollsBack | src/protocols/light_client/mod.rs:335-410 | committing a tip changes script numbers and the filtered number exactly as the rollback of the storage does |
| Forks.ForkLeavesKeptIndex | src/protocols/light_client/mod.rs:376-409 | after a fork the index holds exactly the tables of the blocks below the point of the rollback, at most one above the fork, their transactions are stored at their positions, and filtering resumes no later |
| Forks.CommitToStorage | src/protocols/light_client/mod.rs:335-410 | carries out the commit and the rollback together, and both keep the same numbers |
| MatchedBlocks.ForkBoundsProgress | src/protocols/light_client/mod.rs:376-409 | after a fork the filtered number is at most the fork, every script number at most one more, no batch starts above it, and the batches that start up to it are as they were |
| MatchedBlocks.ForkLeavesNoneAbove | src/protocols/light_client/mod.rs:376-409 | no batch reaches above the fork exactly if none of those that start up to it does; the next drain leaves the scripts at most one above the fork exactly if the earliest of them ends there |
| MatchedBlocks.BatchAboveForkExample | src/protocols/light_client/mod.rs:380-393 | a batch of the blocks 1 to 10 survives a fork at block 3, and its drain takes the script to block 10 |
| MatchedBlocks.Client.AcceptFilters | src/protocols/filter/components/block_filters_process.rs:218-255 | stores matched blocks as a batch, mirrors the earliest one, and raises scripts only when nothing is pending |
| MatchedBlocks.Client.SendBlock | src/protocols/synchronizer.rs:69-117 | a completed batch is removed, its blocks go to filtering in ascending order, and the next batch is mirrored |
| MatchedBlocks.Client.ProveBlocks | src/protocols/light_client/peers.rs:1464-1474 | marks exactly the given matched blocks as proved |
| MatchedBlocks.Client.Recover | src/protocols/filter/block_filter.rs:133-165 | an empty memory is refilled from the earliest batch |
| MatchedBlocks.Client.SetScripts | src/storage.rs:272-373 | carries the registration out; `IndexRuns.RegisterScripts` adds the genesis block |
| MatchedBlocks.Client.RemoveAllBatches | src/protocols/light_client/mod.rs:350-357 | the loop ends, and removes every batch, because no batch starts at block 0 |
| MatchedBlocks.Client.RemoveBatchesAbove | src/protocols/light_client/mod.rs:380-391 | the loop ends with exactly the batches up to the fork and the last of them |
| MatchedBlocks.Client.FindFork | src/protocols/light_client/mod.rs:361-375 | the backward search finds the fork number |
| MatchedBlocks.Client.CommitTip | src/protocols/light_client/mod.rs:335-410 | carries out the commit step; `false` is exactly a long fork |
| MatchedBlocks.Client.UpdateToChild | src/protocols/light_client/mod.rs:315-330 | a heavier child becomes the tip |
| Scheduling.Select | src/protocols/light_client/peers.rs:1477-1530 | up to the limit of the wanted hashes that nobody was asked for, fewer only if there are no more |
| Scheduling.WorkIsLeft | src/protocols/light_client/peers.rs:1476-1540 | a matched block is to be proved, to be downloaded or there, and all are there exactly if nothing is left to ask for |
| Scheduling.DownloadEndsWithAll | src/protocols/light_client/peers.rs:1109-1121 | a download is over exactly when all its blocks have arrived, in any order |
| Scheduling.IssueOne | src/utils/network.rs:20-48 | one more request keeps all requests of the call disjoint from each other and from all outstanding ones |
| Scheduling.Scheduler.ProveMatched | src/utils/network.rs:19-65 | ends; every proof request goes to an idle best peer, is disjoint from all others and for unproved matched blocks; afterwards no best peer is idle or nothing is left |
| Scheduling.Scheduler.DownloadMatched | src/utils/network.rs:67-109 | the same for downloads, of proved blocks that are not there yet |
| Scheduling.Scheduler.ProveOrDownload | src/utils/network.rs:9-110 | both loops in turn |
| Scheduling.Scheduler.ReceiveBlock | src/protocols/light_client/peers.rs:1109-1121 | a request takes note of its blocks and is over exactly when it has all |
| Keys.EncodeInjective | src/storage.rs:1350-1401 | no two keys of any table share an encoding |
| Formats.EntryFormat | src/storage.rs:1330-1401 | the bytes of one cell and one history key for either kind of script |
| Formats.KeyFormat | src/storage.rs:1330-1401 | the bytes of one key of each other table |
| Formats.RecordFormat | src/storage.rs:428-455 | the bytes of one stored batch and of stored last headers |
| Keys.HistoryOrder | src/storage.rs:1423-1434 | within one script's history byte order is chain order, inputs first |
| Keys.CellOrder | src/storage.rs:1423-1434 | within one script's cells byte order is chain order |
| Keys.RollbackScanIsExact | src/storage.rs:868-889 | the reverse scan meets exactly the script's history from the target block on |
| RollbackScan.ByteScanIsReverseScan | src/storage.rs:876-889 | the iterator walks strictly down and yields exactly the keys above the first one it stops at |
| RollbackScan.ScanIsHistory | src/storage.rs:866-905 | with prefix-free scripts the bytes scanned are the encoded history of the script from the target on, newest first, and decode to it |
| Keys.EarliestBatch | src/storage.rs:501-527 | the forward scan meets the smallest start number, or none |
| Keys.LatestBatch | src/storage.rs:501-531 | the backward scan meets the greatest start number, or none |
| Keys.MatchedRoundTrip | src/storage.rs:1436-1452 | a stored batch reads back as it was written |
| Keys.LastHeadersRoundTrip | src/storage.rs:428-455 | stored last headers read back as they were written |
| FilterProofs.FilteringRefinesReplay | src/storage.rs:662-857 | after the next block the tables hold exactly the unspent outputs and the history of the registered scripts in a replay, chained transactions of one block included, whatever is left behind that misleads nobody |
| FilterProofs.FilteringAllRefinesReplay | src/storage.rs:662-857 | the same after any run of blocks |
| FilterProofs.CleanRunMisleadsNobody | src/storage.rs:662-857 | where nothing is left behind no run of blocks misleads, and none leaves anything behind |
| FilterProofs.FreshFilteringRefinesReplay | src/storage.rs:662-857 | a fresh index that filters any valid run of blocks equals the replay of that run |
| BlockHeaders.FilteredHeaders | src/storage.rs:841-857 | a matched block can be found under its number and its hash, and no other header record changes |
| BlockHeaders.HeadersOfRelevantBlocks | src/storage.rs:841-857 | the recorded blocks are exactly those with a transaction that creates or spends an output with a registered script |
| Refiltering.RefilteringIsExact | src/storage.rs:682-857 | whatever is stored, filtering a block refines the replay if and only if the lookups recognise exactly the spends of the chain and hit exactly the cells it spends |
| Refiltering.RefiltersExactlyUnlessMisled | src/storage.rs:682-857 | and that is if and only if no input finds its transaction at another position than the chain has it, unless two such inputs have swapped places |
| Refiltering.MisledWithinBlock | src/storage.rs:682-700 | a misled input finds a transaction left behind that has come back in the input's own block elsewhere, or not at all |
| Refiltering.MisledExample | src/storage.rs:682-700 | a transaction left behind at (1, 0) comes back at (1, 1) and is spent in its block: its cell stays live |
| Refiltering.SwapExample | src/storage.rs:682-700 | two coins that swapped places are spent by one transaction: both inputs are misled and the tables are right |
| Rollback.Storage.FilterBlock | src/storage.rs:662-857 | the loops write one block's batch |
| Rollback.Storage.FilterTx | src/storage.rs:662-840 | the loops add one transaction's operations, looking up earlier transactions of the block first |
| Rollback.Storage.RollbackToBlock | src/storage.rs:862-1016 | every key gets the value that the byte scans of the scripts lead to, whosever entries they meet; script numbers and the filtered number fall to the target |
| Rollback.Storage.SweepScript | src/storage.rs:866-989 | walks back over the encoded keys of one script, cutting the fields of each out behind the script's prefix |
| RollbackProofs.RollbackNeverPanics | src/storage.rs:905-935 | on an indexed database with prefix-free scripts every slice and every lookup of the sweep succeeds |
| RollbackProofs.RollbackUndoesFiltering | src/storage.rs:862-1016 | rolling back leaves exactly the tables of the blocks below the target, cells created and spent above it included, if and only if every script that the removed blocks affect has a number from the target on |
| RollbackProofs.RollbackKeepsStored | src/storage.rs:862-1016 | a rollback leaves every transaction record as it is, so those of the kept blocks stay right |
| RollbackProofs.FilterThenRollback | src/storage.rs:862-1016 | filtering any blocks and rolling back to the first restores every cell and history key |
| IndexRuns.CoveredExactly | src/storage.rs:272-373 | every step keeps each script's number at or above the blocks indexed for it if and only if it does not register a script with a number below its history |
| IndexRuns.RunIsCovered | src/storage.rs:641-660 | so it stays over any run that never does that |
| IndexRuns.RegisteredAgainExample | src/storage.rs:304-324 | a script indexed up to block 5 is registered again from block 1 on, and a rollback to block 3 leaves its history of block 5 |
| IndexRuns.CoveredIsExact | src/storage.rs:862-1016 | wherever the chain is cut, the rollback restores the index if and only if no number lies below a block indexed for its script |
| IndexRuns.IndexFollows | src/protocols/synchronizer.rs:69-117 | every step keeps the index equal to the replay of the blocks filtered and not rolled back: a drain adds its blocks, a fork takes those from the target on away |
| IndexRuns.RunFollows | src/protocols/light_client/mod.rs:335-410 | the same over any run of drains and forks, blocks of the new chain that are filtered after a fork included |
| IndexRuns.ForkCutsLog | src/protocols/light_client/mod.rs:376-409 | after a fork the replay holds no block above it, and has lost none below the target of the rollback |
| IndexRuns.RegisteringStarts | src/storage.rs:272-355 | registering scripts on an empty index starts the replay, with the genesis block exactly if a script is given from block 0 on |
| IndexRuns.RegisterScripts | src/storage.rs:272-373 | carries the registration out on both sides, filtering the genesis block where a given script starts at 0; no block behind a registered number is passed over |
| IndexRuns.ReceiveBlock | src/protocols/synchronizer.rs:69-117 | a block that completes the download has all blocks of its batch filtered in ascending order, and the script numbers raised |
| Pagination.GetPage | src/service.rs:421-577 | a page is the first of what remains behind the cursor, all of it asked for by the search; its cursor is its last key; a zero limit or too long arguments are refused |
| Pagination.SearchPrefixSelects | src/service.rs:1072-1092 | the prefix of a search selects exactly the entries of its table and its kind of script whose script starts with the given one |
| Pagination.AskedByArgs | src/service.rs:1072-1092 | as far as the arguments go: the same code hash and hash type, and arguments that start with the given ones |
| Pagination.PagesAnswerSearch | src/service.rs:421-577 | following cursors in ascending order yields exactly what the search asks for, once and in order |
| Pagination.DescendingPagesAnswerSearch | src/service.rs:1098-1112 | in descending order exactly the entries that go on behind the padded start are missed |
| Pagination.Collect | src/service.rs:455-572 | the closure keeps the first matching keys and the last of them |
| Pagination.PaginationIsLossless | src/service.rs:1072-1115 | following cursors yields the whole filtered scan once and in order, for any limit, if and only if no matching key lies before the start |
| Pagination.AscendingIsLossless | src/service.rs:1093-1097 | in ascending order that is always so |
| Pagination.DescendingIsLossless | src/service.rs:1098-1112 | in descending order something is missed exactly if a matching key goes on behind the padded start |
| Pagination.DescendingLosesExample | src/service.rs:1098-1112 | a search by code hash alone misses a cell whose script arguments fill the padding |
| Pagination.PagesYieldAllFromStart | src/service.rs:421-577 | following cursors yields everything from the start key on, once and in order |
| Pagination.PageRunExists | src/service.rs:421-577 | following cursors comes to an end |
| Pagination.GetCellsCapacity | src/service.rs:840-973 | the capacity of exactly the cells that the search asks for, or an overflow of 64 bits |
| Pagination.CapacityIsSumOfPages | src/service.rs:840-973 | the capacity is the sum over the pages, whatever their size |
| GroupedPages.CollectGroups | src/service.rs:627-740 | a grouped page is the maximal runs of the entries it passed, and stops only when full and at another transaction |
| GroupedPages.GroupedPaginationIsLossless | src/service.rs:627-740 | where transactions stand side by side, following cursors in either order yields every transaction from the start on once with all its cells, whatever the limit; that is all exactly if the start is far enough |
| GroupedPages.OneScriptIsContiguous | src/service.rs:579-740 | in the history of one script they do |
| GroupedPages.RunsAreMaximal | src/service.rs:715-735 | grouping keeps all cells in order, and neighbouring groups differ |
| GroupSplits.GroupedPaginationKeepsCells | src/service.rs:627-740 | without any assumption, in either order, no cell is lost, repeated or moved |
| GroupSplits.SplitIsInterrupted | src/service.rs:627-740 | no limit splits a transaction unless an entry of another one lies between two of its cells |
| GroupSplits.SplitExactlyIfInterrupted | src/service.rs:627-740 | some limit splits a transaction if and only if that is so |
| GroupSplits.SplitExample | src/service.rs:627-740 | a search for a script by prefix splits a transaction with outputs of it and of a script with longer arguments, if another transaction follows for the shorter one |

## Left out

- Proof of work, Merkle mountain range and Merkle proofs, Golomb-coded sets, molecule codecs and compact targets: parameters of the model.
- Floating point and randomness: sampling ratios are integer numerators out of 10^9, and every random choice is left open.
- Network sends, bans, rate limits, timeouts, logging and start-up: they change no modelled state, except that a disconnected peer is forgotten.
- Crashes between two database writes, and handlers that interleave: a handler is one atomic step.
- Fetched headers and transactions, and the transaction index they record for fetched transactions: not part of the index that is replayed.
- Times: when a request was sent and when a last state was updated decide only what is asked for next.
- LightClient.Protocol.SendLastState: whether a last state is too old, which depends on the clock, is a parameter.
- LastStateProof.LastHeadersAreLinked: says nothing where fewer than n new headers follow the list of an earlier proof, because the code does not check that join.
- FilterHashes.UpdateCache: a message that ends exactly on the next check point is not compared with it, because the code compares only messages that go past it.
- FilterProofs.FilteringRefinesReplay: assumes that a hash names one transaction, that an input refers to an earlier output, and that no input is misled by what a rollback left behind, which a fork can bring about (`Refiltering.MisledExample`).
- Refiltering.RefiltersExactlyUnlessMisled: leaves out misled inputs that have swapped places, for which it is false (`Refiltering.SwapExample`); `Refiltering.RefilteringIsExact` covers them.
- IndexRuns.RunFollows: asks that drained blocks continue the chain that is left, which a batch that reaches above a fork does not (`MatchedBlocks.BatchAboveForkExample`), and says nothing about scripts that are registered on an index that is not empty.
- IndexRuns.CoveredExactly: assumes that filters name blocks inside the range they cover, which the code leaves to the peers, and that the scripts ever registered are prefix-free.
- Truthful.RunStaysTrue: the hashes cached between two check points come from one peer and are compared at the next check point only, so they are not covered.
- BatchProgress.NumberIsKept: a run that forks or registers scripts starts anew; forks are covered by `BatchProgress.ForkIsHonest`.
- RollbackProofs.RollbackUndoesFiltering: assumes one fixed set of prefix-free scripts, a database whose keys are encodings of numbers that fit, and no double spend.
- RollbackScan.ScanIsHistory: assumes that no registered script's raw bytes are a prefix of another's; otherwise the scan also meets the other's history.
- Rollback.Storage.RollbackToBlock: asks that no slice and no lookup of the sweeps fails, where the code would panic.
- FilterSync.FilterClient: keeps the filtered number beside the one of `MatchedBlocks.Client`; that a fork lowers both is not part of its steps.
- Samples.CheckIfResponseIsMatched: that a refusal is deserved is proved for headers whose intervals of total difficulty are ordered, as those of one chain are.
- LightClient.Protocol.SendLastStateProof: a failing addition of two 256-bit totals is told apart only where totals are compared.
- FilterSync.FilterClient.CheckFilters: which filters match is left to `MatchedBlocks.Client.AcceptFilters`, which takes the matches as given.
- Pagination.GetPage: the filter options are one predicate on keys; the looked-up outputs are not part of the page.
- Scheduling.Scheduler.ProveOrDownload: requests are disjoint within a call and from what is outstanding; a proof for fetched headers or the downloads started by an arriving blocks proof may still overlap with them.
- Request numbers near the limit of 64 bits: block numbers and check-point numbers are unbounded.
- Transaction pool, relaying, script verification and cycle estimation: thin wrappers around external libraries.
