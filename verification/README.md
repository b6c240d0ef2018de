# Safety of celestia-core, in Dafny

A model of the parts of celestia-core (a CometBFT fork) whose correctness no single
function shows, and proofs about it over all inputs, over interleavings and over crashes.

* **Consensus** (`Power`, `VoteSets`, `VoteCounting`, `Consensus`, `ConsensusInvariant`,
  `ConsensusSteps`, `ConsensusDuties`, `ConsensusProgress`, `Agreement`, `ConsensusState`). `ConsensusState.State` is the round state machine with a method
  for each handler. Each method is proved to compute a function on values in `Consensus` and to keep
  the invariant in `ConsensusInvariant`, given any log of the votes signed so far. A system is
  any number of correct validators and faulty ones with less than a third of the power, which share
  a log of signed votes. Any correct node may handle any event next; faulty validators sign
  anything. Proved for every run and any number of heights: agreement, the locking rule, that no
  vote slot is signed twice, that held blocks are complete, and that no panic is reachable.
  `ConsensusDuties` says what a node has to do: which vote each step casts, when it locks and
  decides, and how it reacts to every event. `ConsensusProgress` puts this together: a round in
  which a valid proposal and enough votes arrive decides.
* **Light client** (`LightVerifier`, `LightClient`, `LightProviders`, `LightDetector`). Header
  verification, bisection with its block cache, sequential and backwards verification that replace
  the primary, the swap-removal of witnesses, and the detector. Providers are arbitrary: what one
  answers may depend on how often it was asked. Proved: soundness of skipping verification,
  termination, uniqueness of what backwards verification reaches, and exactness of the divergence search.
* **Crash recovery** (`Recovery`, `FileSigner`, `WriteAheadLog`). `Recovery` has the disk of a node
  and every single write to it; a crash may fall between any two writes, and may cost the
  application any number of blocks. `FileSigner` is the file-backed signer, `WriteAheadLog` the
  framing of the consensus log.
* **Block sync** (`BlockStats`, `BlockPool`, `BlockSync`). `BlockPool.Pool` holds the requests and
  the peers; `BlockSync.Sync` interleaves the goroutines that share it between any two of their
  critical sections.
* **Evidence** (`EvidenceKeys`, `EvidencePool`, `EvidenceRaces`). The store with its byte keys, the
  list and the counter; and the store cut at every single access, with any number of threads.

Signatures, hashes, encodings and the application are functions of which only the laws that the
code relies on are assumed: hashes of headers do not collide, decoding undoes encoding, the
application is deterministic. Clocks, timeouts, randomness, the order in which answers arrive and
the answers themselves are parameters.

Findings about the code:

* The handshake cannot recover the first block of a chain whose initial height is above 1, and
  panics (`Recovery.FirstBlockNotRecovered`). `Recovery.Expected` is the exact condition, and
  `Recovery.Node.Handshake` is proved to meet it.
* `SetHeight` of the block pool leaves the cached maximum of the peers' heights as it is, which is
  right exactly if no higher peer comes into range (`BlockPool.MaxHeightMoves`,
  `BlockPool.MaxHeightStale`).
* While a new primary is looked for with removal, failure to remove witnesses leaves the new
  primary in place and still listed as a witness, and the call fails though it found one. This
  happens exactly if all other witnesses misbehaved (`LightProviders.Client.FindNewPrimary`), as
  with a single witness (`LightProviders.OnlyWitnessPromoted`).
* Picking a peer goes over a slice that shifts when a timed-out peer is removed, so the peer after
  it can be passed over (`BlockPool.PassedOverByMistake`). The best peer is picked exactly if an even
  number of peers that go stand directly before it, or it is last (`BlockPool.PickIsBest`).
* The counter of pending evidence can exceed the number of items, since evidence about a light
  client is added again (`EvidencePool.LightCountedTwice`); a check adds exactly the number of such
  items that were in the store (`EvidencePool.Pool.CheckEvidence`), and no other operation adds any.
* Expired evidence can stay pending after an update, since the marks for pruning are those of the
  first item when it last pruned, and must be passed (`EvidencePool.ExpiredStays`). The exact
  condition is in `EvidencePool.Pool.Update`; `EvidencePool.MarksAreLate` says for how long.
* The shortcut for a zero counter can hide evidence after a wrap-around (`EvidencePool.CounterWraps`);
  the exact condition is in `EvidencePool.Pool.PendingEvidence`.
* Giving up on a height whose request has no block yet bans the empty peer id
  (`BlockPool.Pool.RemovePeerAndRedoAllPeerRequests`).
* Adding evidence holds no lock from looking into the store to writing to it, so an item can end up
  both pending and committed (`EvidenceRaces.RaceHappens`); `EvidenceRaces.BothExactly` says when.
* The comment on the log's `Encode` speaks of 1 MB; the limit in the code is 512 KB and 24 bytes.

## Model

| member | source | states |
|---|---|---|
| Power.QuorumIntersection | types/vote_set.go:304-318 | any two sets with more than two thirds of the power share a correct validator |
| Power.QuorumHasCorrect | types/vote_set.go:304-318 | a set with more than two thirds of the power has a correct validator |
| VoteSets.RecordCanonicalValid | types/vote_set.go:257-290 | recording the canonical vote keeps the sums equal to the power of the voters |
| VoteSets.CountForBlockValid | types/vote_set.go:291-325 | counting a vote for a block keeps every sum right, and a majority is recorded exactly when the quorum is crossed |
| VoteSets.AddToSetValid | types/vote_set.go:168-325 | adding a vote keeps the set valid, never revokes a majority, and counts that vote for that block at most |
| VoteSets.SetPeerMaj23Valid | types/vote_set.go:334-367 | a peer's claim of a majority changes no votes and no majority |
| VoteSets.AddToHeightValid | consensus/types/height_vote_set.go:133-155 | adding a vote at any round, also a peer's catch-up round, keeps all vote sets valid and only adds that vote |
| VoteSets.SetPeerMaj23InHeightValid | consensus/types/height_vote_set.go:204-222 | the same for a claim at some round |
| VoteCounting.AddedExactly | types/vote_set.go:168-325 | a vote is counted if and only if it is of a validator, not counted before, and either the first one of that validator or another one for a block that a peer claims a majority for; a vote of anyone else changes nothing |
| VoteCounting.FirstVoteStands | types/vote_set.go:257-325 | the first vote of a validator is counted for its block, is its canonical vote, and adds its power to the sum |
| VoteCounting.LaterVote | types/vote_set.go:257-325 | a canonical vote is replaced only by one for the block with the majority, and then is |
| VoteCounting.MajorityExactly | types/vote_set.go:291-325 | a majority is recorded exactly when a counted vote makes more than two thirds for its block, and then stays |
| VoteCounting.ClaimsExactly | types/vote_set.go:334-367 | the first claim of each peer, and no other, lets conflicting votes for that block be counted |
| VoteCounting.FirstVoteCounted | types/vote_set.go:168-325 | over any votes and claims in any order, the first vote of each validator is counted |
| VoteCounting.QuorumDecides | types/vote_set.go:304-318 | if validators with more than two thirds of the power vote first for a block then there is a majority, and it is for that block unless another one has a quorum too |
| VoteCounting.MajorityVoted | types/vote_set.go:304-318 | a majority is for something that validators with more than two thirds of the power voted for |
| VoteCounting.AddedToHeightExactly | consensus/types/height_vote_set.go:133-155 | a vote for any round is counted exactly if the round is tracked, or the peer may still open it, and the vote set counts it |
| VoteCounting.RoundsOpened | consensus/types/height_vote_set.go:133-155 | a peer opens at most two rounds that are not tracked, and only with its own votes |
| VoteCounting.TracksUpTo | consensus/types/height_vote_set.go:97-111 | moving to a round tracks all rounds up to it |
| ConsensusState.State.constructor | consensus/state.go:797-935 | a node starts in a state that meets the invariant of a node, with no vote signed by anyone |
| ConsensusState.State.EnterNewRound | consensus/state.go:1218-1290 | for any height and round: moves on to that round, and never to an earlier one; no panic; keeps the invariant, the lock and all votes |
| ConsensusState.State.EnterPropose | consensus/state.go:1322-1390 | for a round not ahead of the node: prevotes at once if the proposal is complete; keeps the invariant, and a prevote is for the lock if there is one |
| ConsensusState.State.EnterPrevote | consensus/state.go:1535-1559 | for a round not ahead of the node: at most one prevote a round; keeps the invariant. In the round of the node the one new vote is for the locked block; without a lock for the proposal block if it is held, valid and accepted; else nil |
| ConsensusState.State.EnterPrevoteWait | consensus/state.go:1645-1672 | with two thirds of any prevotes there is no panic, and the invariant is kept |
| ConsensusState.State.EnterPrecommit | consensus/state.go:1681-1821 | the lock rule: a lock is dropped or replaced only for a polka at a later round, and its round never falls; at most one precommit a round; none of the panics is reachable; keeps the invariant. In the round of the node: with a polka for a block that is locked or held the one new vote is a precommit for it, and it is locked in this round; without a polka nil, and the lock stays; otherwise nil, and the lock is gone |
| ConsensusState.State.EnterPrecommitWait | consensus/state.go:1824-1852 | with two thirds of any precommits there is no panic, and the invariant is kept, also when the step moves back from commit |
| ConsensusState.State.EnterCommit | consensus/state.go:1857-1926 | with a majority of precommits for a block at any round: no panic, keeps the invariant; the node decides that block if it is locked or held, and otherwise waits for its parts |
| ConsensusState.State.TryFinalizeCommit | consensus/state.go:1929-1969 | in the commit step: no panic; appends a block only with its majority of precommits, and does so if it is held; then meets the invariant at the next height |
| ConsensusState.State.FinalizeCommit | consensus/state.go:1972-2100 | with the committed block at hand: none of the panics is reachable, those of moving to the next height included, and the invariant holds there |
| ConsensusState.State.SetProposal | consensus/state.go:2231-2306 | whatever proposal comes, the invariant, the lock, all votes and all held blocks are kept |
| ConsensusState.State.AddProposalBlockPart | consensus/state.go:2309-2427 | whatever part comes, a block is held only with the complete parts that decode to it, and the invariant is kept |
| ConsensusState.State.HandleCompleteProposal | consensus/state.go:2430-2463 | prevoting, precommitting or finalizing on a complete proposal reaches no panic, keeps the invariant and the lock rule |
| ConsensusState.State.HandleBlockPart | consensus/state.go:1060-1128 | the same for any part that arrives |
| ConsensusState.State.AddVote | consensus/state.go:2527-2620 | any vote that someone signed, for any round, height and type, leads to no panic and keeps the invariant and the lock rule |
| ConsensusState.State.AddLastCommitVote | consensus/state.go:2534-2570 | a late precommit, also one that starts the next round at once, keeps the majority of the last commit and the invariant |
| ConsensusState.State.NotePolka | consensus/state.go:2663-2725 | the lock rule: on a polka the lock goes only if the polka is for something else and at a later round; the valid block has its polka and its parts; keeps the invariant |
| ConsensusState.State.AfterPrevote | consensus/state.go:2650-2755 | every continuation of a counted prevote reaches no panic and keeps the invariant and the lock rule; which one it is follows from the polka, the step and the round: note the valid block, unlock, move to the round, precommit, wait, or prevote |
| ConsensusState.State.AfterPrecommit | consensus/state.go:2756-2779 | every continuation of a counted precommit, up to finalizing and the next height, reaches no panic and keeps the invariant and the lock rule; a majority for a block leads to its decision or to waiting for it, one for nil or two thirds of any to the wait |
| ConsensusState.State.HandleTimeout | consensus/state.go:1131-1179 | every scheduled timeout, stale or not, reaches no panic, keeps the invariant, and takes (height, round) never back |
| ConsensusState.State.HandleTxsAvailable | consensus/state.go:1181-1210 | keeps the invariant, and a prevote it leads to is for the lock if there is one |
| ConsensusState.State.Receive | consensus/state.go:945-1058 | for every event that can be delivered and every log of signed votes whose majorities are valid: no panic; the invariant holds again; chain, votes and signed votes only grow; (height, round) never goes back; locks go only for later polkas; every new vote is justified |
| ConsensusState.TrackRounds | consensus/types/height_vote_set.go:97-111 | the loop that adds rounds gives the tracked rounds up to the new one and keeps all votes |
| ConsensusState.FindPolRound | consensus/types/height_vote_set.go:172-182 | the downward loop finds the highest round with a polka |
| ConsensusSteps.InitNodeInv | consensus/state.go:797-935 | the invariant holds of a node that starts |
| ConsensusSteps.EnterPrevoteStep | consensus/state.go:1535-1642 | a prevote keeps the invariant and is for the locked block, or there is no lock |
| ConsensusSteps.PrecommitChoiceLock | consensus/state.go:1745-1820 | every precommit choice leaves a justified lock and does not panic |
| ConsensusSteps.EnterPrecommitStep | consensus/state.go:1681-1821 | a precommit keeps the invariant, and drops a lock only for a later polka |
| ConsensusSteps.EnterPrecommitWaitStep | consensus/state.go:1824-1852 | keeps the invariant, also when it moves the step back from commit |
| ConsensusSteps.FinalizeCommitStep | consensus/state.go:1972-2100 | finalizing reaches no panic and starts the next height with the invariant |
| ConsensusSteps.EnterCommitStep | consensus/state.go:1857-1926 | entering commit keeps the invariant for any commit round |
| ConsensusSteps.CompleteTakesNoPart | consensus/state.go:2340-2427 | a complete part set takes no further part, so a shared one cannot change under a held block |
| ConsensusSteps.HandleCompleteProposalStep | consensus/state.go:2430-2463 | acting on a complete proposal keeps the invariant |
| ConsensusSteps.UnlockOnPolkaStep | consensus/state.go:2674-2690 | unlocking on a polka seen while adding votes keeps the invariant and is justified |
| ConsensusSteps.NotePolka | consensus/state.go:2663-2725 | unlocking and noting a valid block on a polka keep the invariant, the votes and the round, and are justified |
| ConsensusSteps.AfterPrevoteStep | consensus/state.go:2650-2755 | a counted prevote keeps the invariant |
| ConsensusSteps.AfterPrecommitStep | consensus/state.go:2756-2779 | a counted precommit keeps the invariant |
| ConsensusSteps.AddVoteStep | consensus/state.go:2527-2620 | adding any signed vote keeps the invariant and makes only justified progress |
| ConsensusSteps.HandleTimeoutStep | consensus/state.go:1131-1179 | a timeout keeps the invariant |
| ConsensusSteps.HandleStep | consensus/state.go:945-1058 | every event keeps the invariant of a node, and what it signs is justified by the log |
| ConsensusDuties.PrevoteDone | consensus/state.go:1535-1642 | what a prevote is for: the lock, or else the valid and accepted proposal block, or else nil |
| ConsensusDuties.PrecommitDone | consensus/state.go:1681-1821 | what a precommit is for and what is locked then, by the polka of the round |
| ConsensusDuties.TryFinalizeDone | consensus/state.go:1929-2100 | in the commit step the block is decided exactly if it is held; the next height starts with its validators, the precommits that decided, and no lock |
| ConsensusDuties.CommitDone | consensus/state.go:1857-1926 | with a majority of precommits at any round, the block is decided if locked or held, and else its parts are waited for |
| ConsensusDuties.ProposeDone | consensus/state.go:1322-1390 | the timeout of the propose step is scheduled, and a complete proposal is prevoted for at once |
| ConsensusDuties.NewRoundDone | consensus/state.go:1218-1290 | a later round starts with its votes tracked, no proposal of an earlier round and the same lock, and goes on to propose or waits for transactions |
| ConsensusDuties.WaitsDone | consensus/state.go:1645-1672 | with two thirds of any votes the timeout of the wait is scheduled |
| ConsensusDuties.TimeoutDone | consensus/state.go:1131-1179 | every scheduled timeout that is not late leads to its step, and a late one to nothing |
| ConsensusDuties.PolkaNotedDone | consensus/state.go:2663-2725 | a polka drops exactly an older lock on something else, and makes the held block, or no block, the valid one |
| ConsensusDuties.PrevoteReacts | consensus/state.go:2650-2755 | which step a counted prevote leads to, in every state |
| ConsensusDuties.PrecommitReacts | consensus/state.go:2756-2779 | which step a counted precommit leads to, in every state |
| ConsensusDuties.VoteDone | consensus/state.go:2527-2620 | a vote of this height is counted and leads to that step, or is not counted and leads to none |
| ConsensusDuties.LastCommitDone | consensus/state.go:2534-2570 | a late precommit is added to the last commit exactly while the node waits to begin the height |
| ConsensusDuties.ProposalDone | consensus/state.go:2231-2306 | a proposal is taken if and only if it is the first, of this height and round, in order and accepted |
| ConsensusDuties.TxsDone | consensus/state.go:1181-1210 | transactions make a node that waited for them propose, or schedule it |
| ConsensusDuties.CompleteDone | consensus/state.go:2430-2463 | a complete block becomes the valid one if it has the polka, and is prevoted for, precommitted or decided as the step asks |
| ConsensusDuties.PartDone | consensus/state.go:2309-2463 | a part is added exactly if it belongs to the block waited for and is missing; the last one gives the block it decodes to |
| ConsensusProgress.CollectOne | types/vote_set.go:257-325 | votes of further validators for one block are all counted, and make a majority exactly with the quorum |
| ConsensusProgress.ProposalPrevoted | consensus/state.go:2231-2463 | a valid proposal and its parts, in any order, are answered by a prevote for the block |
| ConsensusProgress.PrevotesTaken | consensus/state.go:2650-2755 | prevotes for it are counted one by one; the one that makes the quorum locks the block, which is precommitted |
| ConsensusProgress.PrecommitsTaken | consensus/state.go:2756-2779 | precommits for it are counted one by one; the one that makes the quorum decides the block |
| ConsensusProgress.GoodRoundDecides | consensus/state.go:945-2100 | at any height and round, from a valid proposal, its parts in any order, and prevotes and precommits that just make a quorum, the node without a lock casts exactly its prevote and its precommit for the block and ends with it decided, at the next height |
| ConsensusProgress.LateBlockDecides | consensus/state.go:2309-2463 | a node that knows the decided block but has no complete parts decides with the last missing part, in any order |
| ConsensusInvariant.MajorityIsQuorum | types/vote_set.go:472-485 | a majority in a node's vote set is a quorum of signed votes |
| Agreement.NoLaterPolka | consensus/state.go:1561-1821 | after a majority of precommits for a block, no polka for anything else forms at a later round |
| Agreement.CommitUnique | consensus/state.go:1857-1969 | at one height at most one block gets a majority of precommits, in any rounds |
| Agreement.MajoritiesAreValid | consensus/state.go:1745-1820 | whatever has a majority was validated by a correct node |
| Agreement.ChainsAgree | consensus/state.go:1972-2100 | correct nodes agree on all blocks that both have finalized, by induction over heights |
| Agreement.NextInv | consensus/state.go:945-1058 | every action of any node keeps the invariant of the system |
| Agreement.Agreement | consensus/state.go:1561-1969 | in every run two correct nodes that finalized a height finalized the same block |
| Agreement.NoPanicAndValidity | consensus/state.go:1892-1997 | in every run no correct node panics, and all it finalizes is valid |
| Agreement.HeldBlocksComplete | consensus/state.go:2385-2418 | in every run proposal, locked and valid blocks have complete parts that decode to them |
| Agreement.LockHasPolka | consensus/state.go:1745-1820 | in every run a lock has a polka at its round, and a lock of this round means the precommit step |
| Agreement.LockDroppedOnlyForPolka | consensus/state.go:2674-2690 | in every run a lock is dropped or replaced only for a polka for something else above it |
| Agreement.NeverGoesBack | consensus/state.go:1131-1179 | from any moment of a run to any later one, (height, round) of a correct node, validator or not, does not go back, and its chain and its signed votes only grow |
| Agreement.VoteOnce | consensus/state.go:1131-1179 | at every moment of every run no two votes of a correct node have the same height, round and type, and they were signed in order |
| LightVerifier.TallyEnough | types/validation.go:332-430 | a commit passes only if genuine signers hold more than the needed power, each counted once |
| LightVerifier.TallyComplete | types/validation.go:332-430 | and if a commit is clean, that is all its signatures are genuine and for distinct validators, then it passes whenever the signers hold more than the needed power |
| LightVerifier.VerifiedMeans | light/verifier.go:32-195 | a header that verifies is not from before the trusting period, follows the trusted one, is signed by more than two thirds of its own validators, and has the announced validators or, across a gap, more than the trust level of the trusted ones |
| LightVerifier.VerifiesExactly | light/verifier.go:32-195 | for a clean commit, exactly when each of the outcomes comes: accepted, expired, not trusted across the gap, other validators than announced |
| LightVerifier.VerifyOrders | light/verifier.go:135-151 | a verified header is later in height and time; lack of trust needs a gap of heights |
| LightVerifier.VerifyAdjacentSound | light/verifier.go:93-128 | an adjacent header that verifies against a canonical one is canonical |
| LightVerifier.VerifyNonAdjacentSound | light/verifier.go:32-80 | so is a header across a gap that verifies, by the trust assumption on the signers in the trusted set |
| LightVerifier.VerifySound | light/verifier.go:135-195 | one step of verification reaches only canonical headers |
| LightClient.PivotBetween | light/client.go:747-755 | the pivot at 9/16 lies strictly between its bounds |
| LightClient.VerifySkipping | light/client.go:706-773 | terminates; success is a trace of verified hops from trusted to target; failure comes at a block reached by verified hops and is due to the direct check of the target, or to lack of trust together with the answer to a request that was made for that height; every request is for the height 9/16 of the way from a block reached to the lowest block above it that was asked for before |
| LightClient.HonestVerified | light/client.go:706-773 | with a provider that has a block for every height between, none of which is refused, the target is always reached |
| LightClient.DirectDecides | light/client.go:706-773 | unless direct verification lacks trust it decides: the target is accepted if and only if it verifies from the trusted block |
| LightClient.TraceIncreases | light/client.go:706-773 | heights and times strictly increase along a trace |
| LightClient.TraceSound | light/client.go:706-773 | every block of a trace from a canonical block is canonical |
| LightClient.TracesAgree | light/client.go:613-773 | two verifications, skipping or sequential, never accept different headers at one height |
| LightProviders.SwapRemoveKeeps | light/client.go:1039-1044 | moving the last witness into a gap loses that one position and no other |
| LightProviders.Client.RemoveWitnesses | light/client.go:1031-1046 | keeps exactly the witnesses at other positions, or changes nothing if none would be left |
| LightProviders.Client.FindNewPrimary | light/client.go:1058-1142 | exact, by the answers to the requests of this call in order of arrival: who becomes primary, when it succeeds, and which positions stay; the promoted witness stays listed and the call fails if and only if removal was asked for and all others misbehaved |
| LightProviders.OnlyWitnessPromoted | light/client.go:1110-1142 | the only witness, which has the block, is promoted and still listed, and the call fails |
| LightProviders.Client.LightBlockFromPrimary | light/client.go:998-1028 | the block has the height asked for and is from the primary, a new one if need be; there is none if and only if the primary did not give it and, of the witnesses asked in order of arrival, none gave it, or one did, removal was due and all others misbehaved |
| LightProviders.Client.Backwards | light/client.go:933-987 | terminates; success means that following hashes from the trusted header leads to the hash of the target, across replaced primaries; failure means that a block between the two heights was asked for and neither the primary nor a witness provided it, or that along headers given in answer to requests of this call the hashes lead to a block that breaks the chain, or to another hash at the height of the target; with a broken link no witness that is left could take over: none gave the target, or it gave another one, or all others misbehaved |
| LightProviders.Client.NotStoppedBackwards | light/client.go:933-987 | if the target is an ancestor of the trusted header, only a block not obtained or one that breaks the chain can be the cause of a failure |
| LightProviders.HashPathsAgree | light/verifier.go:221-245 | hash paths from one header agree at every step |
| LightProviders.HashPathOrdered | light/verifier.go:221-245 | they stay on one chain and go back in time, over well-formed headers |
| LightProviders.BackwardsAgree | light/client.go:933-987 | two headers of one height reached backwards from one trusted header are equal |
| LightProviders.Client.VerifySequential | light/client.go:613-697 | terminates; success is a trace through every height, though primaries were replaced on the way; failure means that a block between the two heights was asked for and neither the primary nor a witness provided it, or that after a trace of blocks given in answer to requests of this call the next one, or the target, does not verify; an invalid header below the target ends it only if no witness that is left could take over |
| LightProviders.Client.SkipWith | light/client.go:706-773 | skipping verification with one provider, which gets all the requests sent; failures are explained by its answers to them |
| LightProviders.Client.VerifySkippingAgainstPrimary | light/client.go:777-825 | terminates; goes through primaries in turn, each after the first having given the target again; with every one but the last the target could not be reached by the requests that this call sent to it in its turn, and neither with the last if the call fails; success is a trace to the block of the last one, with the hash of the target; it gives up at an invalid header below the target only if no witness that is left could take over |
| LightDetector.ExamineConflictingHeader | light/detector.go:308-391 | for any increasing trace: a reported divergence has a verified source trace out of the last common block, never a stale one; a target below the trace is refused exactly then; a real conflict never ends in no divergence; any other failure is the fault of the source, in its answers to the requests sent to it |
| LightDetector.NotAtFault | light/detector.go:308-391 | a source that gave every block, has the same first one, and whose blocks verify from each other is not at fault |
| LightDetector.NoFalseAlarm | light/detector.go:308-391 | under the trust assumption no divergence is reported |
| LightDetector.GetTargetBlockOrLatest | light/detector.go:397-422 | there is no block exactly if the witness has no latest one, or a higher one and then does not give the one of the height; otherwise it is the block of the height, or the latest one if that is lower |
| LightDetector.CompareWithWitness | light/detector.go:121-223 | each result of a comparison is grounded in the answers of the witness to the requests sent to it, for the height or for its latest block |
| LightDetector.HandleConflictingHeaders | light/detector.go:235-293 | an attack is reported with evidence against the primary from a diverging trace of the witness; evidence against the witness comes with it, unless the primary, examined on the trace of the witness in turn, showed no divergence; none is reported only if the first examination found no divergence |
| LightDetector.DetectDivergence | light/detector.go:28-110 | trusts only with a matching witness, and keeps exactly the witnesses that matched or were unhelpful; fails for want of witnesses only if all conflicted without proof or were bad, each by its answers to the requests sent to it |
| Recovery.WriteKeepsRecoverable | state/execution.go:335-440 | every single write, and any loss of application blocks, keeps the disk recoverable |
| Recovery.HistoryRecoverable | consensus/state.go:2013-2088 | a crash at any point of any life leaves a recoverable disk |
| Recovery.LifeGoesOn | consensus/replay.go:387-471 | a node that starts on such a disk and crashes after any write continues that life |
| Recovery.LosslessNeverTooLow | consensus/replay.go:391-404 | an application that loses nothing is never too far behind or ahead |
| Recovery.FirstBlockNotRecovered | consensus/replay.go:406-413 | with an initial height above 1 some crash leads to the gap panic |
| Recovery.Node.PruneBlocks | state/execution.go:944-964 | blocks below the retained height go, if it is within the store |
| Recovery.Node.ApplyBlock | state/execution.go:335-440 | response, application and state are written in this order and end in step, and blocks below the height that the application retains are pruned; the whole disk then; a mock executes and prunes nothing |
| Recovery.Node.FinalizeCommit | consensus/state.go:2013-2088 | the block is saved first and then applied and pruned, with the whole disk then; every state of the disk in between is one write apart |
| Recovery.Node.ReplayBlock | consensus/replay.go:531-553 | the last block always validates and is applied, with the whole disk then |
| Recovery.Node.ExecCommitBlock | state/execution.go:895-942 | one block is executed and committed without touching the state |
| Recovery.Node.ReplayBlocks | consensus/replay.go:473-528 | executes exactly the missing blocks in order, and no hash check fails; the whole disk then |
| Recovery.Node.Handshake | consensus/replay.go:305-471 | from any recoverable disk ends as expected; in step means equal heights, with each missing block executed once, in order, and a disk that is determined up to pruning by what was found; otherwise nothing is executed or changed but the genesis hash |
| FileSigner.CheckHRS | privval/file.go:100-132 | regression, equality and progress exactly by the order of height, round and step |
| FileSigner.CompareWithStored | privval/file.go:438-474 | a message for the stored step agrees with the stored one up to time, or with no time at all; decoding never fails |
| FileSigner.ReleaseStored | privval/file.go:360-375 | releasing what the file holds keeps the record free of double signing and regression |
| FileSigner.FilePV.constructor | privval/file.go:163-176 | a new signer has signed nothing |
| FileSigner.FilePV.Reload | privval/file.go:199-232 | a new process knows what the file says |
| FileSigner.FilePV.SignVote | privval/file.go:316-379 | signs exactly later votes, or the stored one up to its time, whose sign-bytes the returned vote then has; which refusal comes when; crashes before or after saving release nothing, and only one after saving changes the file |
| FileSigner.FilePV.SignProposal | privval/file.go:384-418 | the same for proposals |
| FileSigner.Serve | privval/file.go:316-430 | over any requests, crashes and restarts, all signatures for one height, round and step are over the same bytes, and these never regress; each request is answered exactly if it is later than the file or what the file holds but for the time |
| FileSigner.SignRound | privval/file.go:25-43 | in a round not signed for, proposal, prevote and precommit are signed in this order, and each of the earlier ones is refused as a regression once a later one was signed |
| FileSigner.SignBytesAgree | types/canonical.go:42-78 | votes, proposals and extensions have the same sign-bytes only if they are of one kind and say the same, for the same chain |
| WriteAheadLog.PutUint32 | consensus/wal.go:328-329 | four bytes that read back as the number |
| WriteAheadLog.DecodeFrame | consensus/wal.go:372-417 | a whole frame decodes to its message whatever follows |
| WriteAheadLog.DecodeTornFrame | consensus/wal.go:372-417 | every proper part of a frame is recognized as corruption |
| WriteAheadLog.FrameLayout | consensus/wal.go:302-334 | checksum, length and payload, with the highest byte first |
| WriteAheadLog.DecodesExactly | consensus/wal.go:372-417 | bytes decode to a message if and only if they start with checksum and length of a payload within the limit that unmarshals to it; the end is only where there are none |
| WriteAheadLog.DecodeDamaged | consensus/wal.go:372-417 | a frame whose bytes no longer fit the checksum is corrupted, whatever follows |
| WriteAheadLog.DamagedLog | consensus/wal.go:372-417 | a log with a damaged frame anywhere decodes to exactly the messages before it |
| WriteAheadLog.CompleteIsExact | consensus/wal.go:302-334 | the count of complete messages is that of frames that end within the bytes |
| WriteAheadLog.TornWrites | consensus/wal.go:372-417 | a log cut off anywhere decodes to the complete messages, then end of file exactly at a frame boundary, else corruption |
| WriteAheadLog.RoundTrip | consensus/wal.go:302-417 | decoding undoes encoding |
| WriteAheadLog.Encoder.Encode | consensus/wal.go:302-334 | appends the frame through the reused buffer, or fails exactly over the limit |
| WriteAheadLog.Decoder.ReadFull | consensus/wal.go:373-402 | fills a buffer as far as the stream allows |
| WriteAheadLog.Decoder.Decode | consensus/wal.go:372-417 | gives what the bytes ahead decode to, and moves on by what it read |
| WriteAheadLog.RepairWalFile | consensus/state.go:3044-3076 | writes the frames of the messages up to the first error; fails exactly if one has become too large |
| WriteAheadLog.RepairIsClean | consensus/state.go:3044-3076 | a repaired file has the same messages and no damage, and repairing it again changes nothing |
| WriteAheadLog.RepairTornWrites | consensus/state.go:3044-3076 | repairing a cut-off log gives the log of its complete messages |
| WriteAheadLog.RepairDamaged | consensus/state.go:3044-3076 | repairing a log with a damaged frame keeps exactly the messages before it |
| WriteAheadLog.ScanDamaged | consensus/wal.go:251-275 | the search fails at a damaged frame, or goes on right after it if told to ignore corruption |
| WriteAheadLog.SearchForEndHeight | consensus/wal.go:231-281 | the loops over files and messages compute the search |
| WriteAheadLog.ScanFrames | consensus/wal.go:251-275 | scanning stops right after the first end of the height |
| WriteAheadLog.SearchExact | consensus/wal.go:231-281 | in an undamaged log the search finds the end of a height if and only if it is there, in spite of the early exit |
| BlockStats.WriteAtHead | blocksync/block_stats.go:32-57 | writing at the head makes the ring hold the last values, the new one included |
| BlockStats.MaxAfterAdd | blocksync/block_stats.go:32-53 | what the cached maximum must become unless the value dropped was the maximum |
| BlockStats.BlockStats.constructor | blocksync/block_stats.go:18-28 | an empty buffer, of capacity 10 if none is given |
| BlockStats.BlockStats.Add | blocksync/block_stats.go:32-57 | the buffer holds exactly the last values added and their maximum |
| BlockStats.BlockStats.RecalculateMax | blocksync/block_stats.go:61-68 | the maximum of the ring |
| BlockStats.BlockStats.GetMax | blocksync/block_stats.go:71-73 | the maximum of the last values added |
| BlockPool.MaxHeightMoves | blocksync/pool.go:333-337 | moving the height up keeps the maximum exactly if no higher peer comes into range |
| BlockPool.MaxHeightStale | blocksync/pool.go:333-337 | a peer for which it does not |
| BlockPool.SortInOrder | blocksync/pool.go:668-672 | sorting keeps the peers and orders them by rate |
| BlockPool.Pool.constructor | blocksync/pool.go:126-145 | a pool without requests or peers |
| BlockPool.Pool.UpdateMaxPeerHeight | blocksync/pool.go:576-590 | the greatest height of a peer whose base does not exceed the pool's height |
| BlockPool.Pool.RemovePeer | blocksync/pool.go:544-571 | removes that peer, and keeps the maximum exact though it is recomputed only if this peer had it |
| BlockPool.Pool.SetPeerRange | blocksync/pool.go:489-532 | adds or updates a peer, or drops it if it contradicts itself and bans it for 60 seconds |
| BlockPool.Pool.SetHeight | blocksync/pool.go:333-337 | moving up leaves the maximum right if and only if no peer that comes into range is higher |
| BlockPool.Pool.PeekTwoBlocks | blocksync/pool.go:316-328 | the blocks of the next two heights, which have these heights |
| BlockPool.Pool.PopRequest | blocksync/pool.go:340-358 | takes out the lowest request, moves on, and makes the maximum exact |
| BlockPool.Pool.AddBlock | blocksync/pool.go:416-472 | takes a block exactly if it was requested from this peer and is missing, and then changes this request and no other; says when each refusal comes and which cases count the peer's request as answered |
| BlockPool.Pool.DecrPending | blocksync/pool.go:778-792 | one request less, not below zero |
| BlockPool.Pool.OnTimeout | blocksync/pool.go:794-802 | marks the peer |
| BlockPool.Pool.RemoveTimedoutPeers | blocksync/pool.go:212-250 | removes exactly the peers that timed out or are slow, and expired bans; sorts the rest |
| BlockPool.Pool.SweepPeer | blocksync/pool.go:212-235 | a peer goes exactly if it timed out, or has requests pending and sends fewer than 131072 bytes a second but some |
| BlockPool.PickIsBest | blocksync/pool.go:622-663 | the peer picked is the best one, that is the first that can serve the height, the previous one only for want of another, if and only if the position of the best one is not skipped; a position is skipped exactly behind an odd run of peers that timed out, unless it is the last |
| BlockPool.PickAligned | blocksync/pool.go:622-663 | going over the slice while removals shift it comes across exactly the positions that are not skipped, in order |
| BlockPool.NothingSkipped | blocksync/pool.go:622-663 | if no peer had timed out no position is skipped, so the best one is picked |
| BlockPool.PickedIfServed | blocksync/pool.go:622-663 | while none has timed out, a peer is picked if and only if one that is not to be ignored has the height in its range and room for a request |
| BlockPool.PassedOverByMistake | blocksync/pool.go:629-636 | a peer behind one that timed out is passed over, though it is the only one that can serve the height |
| BlockPool.Pool.PickIncrAvailablePeer | blocksync/pool.go:622-663 | the peer picked has the height in its range, has not timed out and has room, and has one more request pending; only peers that timed out are removed, and the maximum stays exact |
| BlockPool.Pool.RemovePeerAndRedoAllPeerRequests | blocksync/pool.go:363-378 | for a height with a request, the peer that sent its block is removed and banned, or the empty id if no block had come; otherwise nothing changes; the maximum stays exact |
| BlockPool.Pool.AssignPeer | blocksync/pool.go:979-982 | a request remembers the peer it went to |
| BlockPool.Pool.ResetRequester | blocksync/pool.go:916-937 | a request forgets a peer, and its block if that peer sent it |
| BlockSync.Sync.constructor | blocksync/reactor.go:122-126 | the pool starts at the height after the state, or the initial height |
| BlockSync.Sync.SwitchToBlockSync | blocksync/reactor.go:173-177 | the pool is moved past the snapshot and stays coherent; the maximum then is right if and only if no higher peer came into range |
| BlockSync.Sync.ReactorPeek | blocksync/reactor.go:478-501 | neither height panic is reachable; the loop goes on with the next two blocks exactly if both are there |
| BlockSync.Sync.ReactorPop | blocksync/reactor.go:605-605 | the pop finds its request, takes out that one, and the block is next to be applied |
| BlockSync.Sync.ReactorReject | blocksync/reactor.go:586-602 | of two blocks that do not verify the sender of the first is removed and banned and, in a later critical section, that of the second, as the pool has them at the time |
| BlockSync.Sync.TrySync | blocksync/reactor.go:478-635 | one round of the sync loop: with both blocks there the state moves to the first one exactly if it verifies, and otherwise the senders of both are gone; without them nothing changes |
| BlockSync.Sync.SpawnerStep | blocksync/pool.go:173-206 | the next height is requested exactly while fewer than 40 are and a peer is that high |
| BlockSync.Sync.RequestStep | blocksync/pool.go:416-472 | a block that is wanted is there then, and no other delivery adds or drops one |
| BlockSync.Sync.PeerStep | blocksync/pool.go:489-571 | what each report, departure, timeout, sweep and pick does to the peers, with the requests as they are |
| BlockSync.Sync.SpawnerMake | blocksync/pool.go:674-686 | the request made for a height computed earlier overwrites none and leaves no gap |
| BlockSync.Sync.Step | blocksync/pool.go:173-206 | any critical section of any goroutine keeps requests and reactor coherent; the state moves only by applying the block that was popped, and does then; the pool moves on only by a pop |
| BlockSync.Sync.Run | blocksync/reactor.go:465-635 | in every interleaving no panic and requests for a run of at most 40 heights; the maximum is exact if it was, and also after a state sync as soon as a block was popped |
| EvidenceKeys.HexOrder | evidence/pool.go:559-561 | fixed-width hexadecimal keeps the order of numbers |
| EvidenceKeys.KeysOrderHeights | evidence/pool.go:571-573 | keys are ordered by height first |
| EvidenceKeys.KeysInjective | evidence/pool.go:563-573 | different heights or hashes have different keys |
| EvidenceKeys.Iterate | evidence/pool.go:403-411 | all keys, each once, in the order of the store |
| EvidencePool.NoneExpiredAfter | evidence/pool.go:265-273 | after an item that has not expired none has, in the order of the store |
| EvidencePool.PurgeStops | evidence/pool.go:411-432 | stopping at the first unexpired item has removed exactly the expired ones |
| EvidencePool.OldestDecides | evidence/pool.go:265-273 | nothing in a store has expired if and only if its first item has not |
| EvidencePool.MarksAreLate | evidence/pool.go:405-426 | the marks that an item sets are passed only once it has expired, and an expired one is left waiting exactly at the height of the mark or up to a second past its age |
| EvidencePool.Pool.constructor | evidence/pool.go:55-84 | a pool over an existing store prunes it, lists and counts what is left, and takes the marks for pruning from the first item left |
| EvidencePool.Pool.AddPendingEvidence | evidence/pool.go:295-314 | files the item; the counter exceeds the number of items by one more exactly if the item was there |
| EvidencePool.Pool.RemovePendingEvidence | evidence/pool.go:316-324 | takes out one item, and the counter exceeds the number of items by as much as before |
| EvidencePool.Pool.RemoveEvidenceFromList | evidence/pool.go:436-447 | drops exactly the items with one of the hashes |
| EvidencePool.Pool.AddEvidence | evidence/pool.go:134-168 | adds exactly evidence that is new, genuine, dated with the block of its height and not past both age limits, to the store and the list |
| EvidencePool.Pool.CheckEvidence | evidence/pool.go:192-230 | a list is accepted if and only if no hash comes twice and every item verifies and is not committed, or was pending and is not about a light client; otherwise the first item at fault decides, and its fault is named; exactly what was checked is stored; the counter gains on the number of items by exactly the light client items that were in the store |
| EvidencePool.ReaddedAreHeld | evidence/pool.go:192-230 | in an accepted list these are the items about light clients that were pending before |
| EvidencePool.CountAgain | evidence/pool.go:200-222 | an item about a light client that is in the store and comes in a block is counted once more |
| EvidencePool.LightCountedTwice | evidence/pool.go:200-222 | a pool of one item whose counter says two |
| EvidencePool.Pool.MarkEvidenceAsCommitted | evidence/pool.go:328-356 | the items are committed, no longer pending and no longer listed |
| EvidencePool.Pool.PurgeExpired | evidence/pool.go:411-428 | removes items in order up to the first that has not expired |
| EvidencePool.Pool.RemoveExpiredPendingEvidence | evidence/pool.go:403-434 | exactly the expired items leave the store and the list, and the next pruning is set by the first one left |
| EvidencePool.Formed | evidence/pool.go:459-537 | votes of this height or of a known block below become evidence dated with the block of their height |
| EvidencePool.Pool.ProcessConsensusBuffer | evidence/pool.go:459-537 | exactly the evidence that the buffered votes make, unless it is committed, becomes pending beside what was; the buffer is empty |
| EvidencePool.Pool.PruneIfDue | evidence/pool.go:125-130 | prunes exactly if the counter is not zero and the marks are passed; nothing expired is left if and only if it pruned or the first item was unexpired |
| EvidencePool.Pool.Update | evidence/pool.go:105-131 | panics, changing nothing, exactly for a state that is not newer; committed evidence is not pending; the store then holds exactly what was pending or came from the buffer and was not committed, less the expired items if the marks are passed and the counter is not zero; the marks become those of the first item left, or stay; nothing expired is left if and only if it was pruned or the first item was unexpired |
| EvidencePool.ExpiredStays | evidence/pool.go:125-130 | a pool that holds an expired item after an update |
| EvidencePool.Pool.ListEvidence | evidence/pool.go:360-401 | the pending evidence in order, and the longest part of it that fits |
| EvidencePool.Pool.PendingEvidence | evidence/pool.go:87-96 | evidence in the order of the store that fits; it is the longest such part if and only if the counter is not zero, or nothing is pending, or the first item does not fit; a zero counter with items needs a wrap-around |
| EvidencePool.CounterWraps | evidence/pool.go:87-96 | a pool of one item with a counter of zero, which offers no evidence |
| EvidencePool.Run | evidence/pool.go:87-230 | over any sequence of operations the store, the list and the counter agree, and nothing committed is pending or listed; from each state of the pool to the next leads the step of that operation; the counter gets ahead of the items by exactly the sum, over all checks of blocks, of the items that the check put into the store though they were in it; not at all without checks of evidence about light clients; ends early exactly at an update that panics |
| EvidencePool.ExcessIsReadded | evidence/pool.go:192-314 | in every run the excess of the counter is the sum of the items that checks added again |
| EvidencePool.CheckDetermined | evidence/pool.go:192-230 | how far a check gets, by how much the counter gets ahead, and which items are in the store then, is decided by the pool and the list |
| EvidencePool.OneCheckRun | evidence/pool.go:200-222 | for a run that checks one light client item in the store, this sum is one |
| EvidenceRaces.BothExactly | evidence/pool.go:134-356 | in every interleaving of single store accesses by any number of threads, an item ends up both pending and committed if and only if a thread saw it uncommitted before it was marked, stored it after the marker had looked for it, and it was not removed since |
| EvidenceRaces.BothHasRaced | evidence/pool.go:328-349 | an item that is both has such a pair of overlapping operations |
| EvidenceRaces.RaceHappens | evidence/pool.go:134-168 | a run of five accesses that ends so |

## Left out

- Networking, gossip, RPC, node wiring, configuration, metrics and logging: input and output.
- Proposal creation and signing, proposer rotation and vote extensions: only what a proposal and a vote for it do to the state is modelled.
- Messages with wrong signatures, and database or event-bus errors: the code drops or reports them without a change of state.
- A correct validator that restarts in the middle of a height counts as faulty in `Agreement`, since peers' votes are not in its log.
- Timers and real time, and liveness beyond a round whose messages arrive (`ConsensusProgress.GoodRoundDecides`): a timeout is an event that may come at any time.
- 32-bit and 64-bit overflow of heights, rounds and powers; only the evidence counter and the length field of the log are modelled as machine integers.
- Batch verification of signatures; commits looked up by index or by address are one tally that counts each validator once.
- Cancelled contexts and the trusted store of the light client.
- The further fields of light client attack evidence (common height, time and byzantine validators): evidence is the three blocks that they are computed from.
- The state that only accumulates beside heights and hashes during block execution: validator updates, parameters and transaction indexes.
- Resetting the signer and signing raw bytes, which bypass the protection by design.
- The pool's atomic count of pending requests, the request limit by block size, and whether the node is caught up.
- WriteAheadLog.Encoder.Encode: messages of 4 GB and more, whose length would be truncated, are excluded by the law that marshalled messages are shorter.
- BlockPool.Pool.RemoveTimedoutPeers: the sort is one that gives a particular order among equal rates, where the code leaves it open.
- EvidencePool.Run: operations of the pool are whole; only whether an item is pending or committed is followed access by access, in `EvidenceRaces`, and not the list and the counter.
