/**
  What a node has to do, besides what it must not: which votes it casts, what it locks on, when it
  decides, and which timeouts it waits for (consensus/state.go).
*/
module ConsensusDuties {
  import opened Power
  import opened VoteSets
  import opened Consensus
  import opened ConsensusInvariant
  import opened ConsensusSteps
  import opened VoteCounting

  /** The block that the node holds complete as its proposal block. */
  ghost function Held(rs: RoundState): BlockID {
    IdOf(rs.proposalBlock, rs.proposalParts)
  }

  /** The one new vote, of a validator whose signer does not refuse it. */
  ghost predicate Casts(o: Oracle, n: Node, m: Node, kind: VoteType, b: BlockID) {
    var v := Vote(n.rs.height, n.rs.round, kind, b, n.id);
    m.sent == if n.id in n.rs.validators.power && o.signs(v) then n.sent + [v] else n.sent
  }

  ghost predicate SameLock(rs: RoundState, rs': RoundState) {
    rs'.lockedRound == rs.lockedRound && rs'.lockedBlock == rs.lockedBlock && rs'.lockedParts == rs.lockedParts
  }

  ghost predicate Unlocked(rs: RoundState) {
    rs.lockedRound == -1 && rs.lockedBlock == None && rs.lockedParts == None
  }

  //---------------------------------------------------------------------------
  // Prevotes

  /** The node holds a valid block that the application accepts. */
  ghost predicate Votable(p: Params, o: Oracle, n: Node) {
    ValidID(p, n.chain, Held(n.rs)) && o.accepts(p.decode(Held(n.rs).parts).value)
  }

  /** A prevote is for the lock, or else for the proposal block if that is valid and accepted, or else nil. */
  ghost predicate PrevoteDuty(p: Params, o: Oracle, n: Node, m: Node) {
    && m == n.(rs := n.rs.(step := PREVOTE), sent := m.sent)
    && (LockedID(n.rs).BlockID? ==> Casts(o, n, m, Prevote, LockedID(n.rs)))
    && (LockedID(n.rs) == NilBlock && Votable(p, o, n) ==> Casts(o, n, m, Prevote, Held(n.rs)))
    && (LockedID(n.rs) == NilBlock && !Votable(p, o, n) ==> Casts(o, n, m, Prevote, NilBlock))
  }

  lemma PrevoteDone(p: Params, o: Oracle, n: Node)
    requires BlocksInv(p, n.rs) && n.rs.step < PREVOTE
    ensures PrevoteDuty(p, o, n, EnterPrevote(p, o, n, n.rs.height, n.rs.round))
  {
  }

  //---------------------------------------------------------------------------
  // Precommits

  /**
    With a polka of this round for a block that is locked or held, the precommit is for that block and the node is
    locked on it in this round; without a polka it is nil and the lock stays; otherwise it is nil and the lock is gone.
  */
  ghost predicate PrecommitDuty(o: Oracle, n: Node, m: Node) {
    && m.rs.height == n.rs.height && m.rs.round == n.rs.round && m.rs.step == PRECOMMIT && m.rs.votes == n.rs.votes
    && m.chain == n.chain && m.timeouts == n.timeouts && !m.panicked
    && match TwoThirdsMajority(n.rs.votes, n.rs.round, Prevote)
       case None => Casts(o, n, m, Precommit, NilBlock) && SameLock(n.rs, m.rs)
       case Some(b) =>
         if b.BlockID? && (LockedID(n.rs) == b || Held(n.rs) == b)
         then Casts(o, n, m, Precommit, b) && LockedID(m.rs) == b && m.rs.lockedRound == n.rs.round
         else
           && Casts(o, n, m, Precommit, NilBlock) && Unlocked(m.rs)
           && (b.BlockID? ==> HasHeader(m.rs.proposalParts, b))
  }

  /** The round state that a precommit leaves, and what it is for. */
  ghost predicate RightChoice(rs: RoundState, rs': RoundState, c: BlockID) {
    match TwoThirdsMajority(rs.votes, rs.round, Prevote)
    case None => c == NilBlock && SameLock(rs, rs')
    case Some(b) =>
      if b.BlockID? && (LockedID(rs) == b || Held(rs) == b)
      then c == b && LockedID(rs') == b && rs'.lockedRound == rs.round
      else c == NilBlock && Unlocked(rs') && (b.BlockID? ==> HasHeader(rs'.proposalParts, b))
  }

  lemma PrecommitDone(p: Params, o: Oracle, n: Node, log: seq<Vote>)
    requires Inv(p, n, log) && MajoritiesValid(p, n.chain, log) && n.rs.step < PRECOMMIT
    ensures PrecommitDuty(o, n, EnterPrecommit(p, o, n, n.rs.height, n.rs.round))
  {
    PrecommitChoiceLock(p, n, log);
    InvWellHeld(p, n, log);
    PrecommitChosen(p, n);
    PrecommitChoiceFields(p, n);
    NotPanicked(p, n, log);
    hide Inv, MajoritiesValid, PrecommitChoice, LockKept, LockInv, RightChoice, BlocksInv;
    var (rs, c) := PrecommitChoice(p, n, n.rs.round).value;
    PrecommitFrame(o, n, rs, c);
  }

  lemma PrecommitFrame(o: Oracle, n: Node, rs: RoundState, c: BlockID)
    requires OnlyLockChanged(n.rs, rs) && RightChoice(n.rs, rs, c) && !n.panicked
    ensures PrecommitDuty(o, n, UpdateRoundStep(SignAddVote(o, n.(rs := rs), Precommit, c), n.rs.round, PRECOMMIT))
  {
    hide TwoThirdsMajority;
  }

  lemma NotPanicked(p: Params, n: Node, log: seq<Vote>)
    requires Inv(p, n, log)
    ensures !n.panicked && BlocksInv(p, n.rs) && LockInv(p, n.chain, n.rs)
  {
  }

  /** A block that is held with its parts matches an id exactly if it is its own. */
  lemma MatchesOwn(block: Option<Block>, parts: Option<PartSet>, b: BlockID)
    requires b.BlockID? && (block.Some? ==> parts.Some?)
    ensures BlockMatchesBlockID(block, parts, b) <==> IdOf(block, parts) == b
  {
  }

  /** Blocks come with their parts, and no block is locked without a round. */
  ghost predicate WellHeld(rs: RoundState) {
    && (rs.lockedBlock.Some? ==> rs.lockedParts.Some?) && (rs.proposalBlock.Some? ==> rs.proposalParts.Some?)
    && (rs.lockedBlock == None ==> Unlocked(rs))
  }

  lemma InvWellHeld(p: Params, n: Node, log: seq<Vote>)
    requires Inv(p, n, log)
    ensures WellHeld(n.rs)
  {
  }

  lemma PrecommitChosen(p: Params, n: Node)
    requires WellHeld(n.rs) && PrecommitChoice(p, n, n.rs.round).Some?
    ensures var (rs, c) := PrecommitChoice(p, n, n.rs.round).value; RightChoice(n.rs, rs, c)
  {
    hide TwoThirdsMajority, PolRound;
    var rs, polka := n.rs, TwoThirdsMajority(n.rs.votes, n.rs.round, Prevote);
    if polka.Some? && polka.value.BlockID? {
      MatchesOwn(rs.lockedBlock, rs.lockedParts, polka.value);
      MatchesOwn(rs.proposalBlock, rs.proposalParts, polka.value);
      hide BlockMatchesBlockID;
    }
  }

  //---------------------------------------------------------------------------
  // Decisions

  /** The block is final, and the node is at the start of the next height with the precommits that decided it. */
  ghost predicate Decides(p: Params, n: Node, m: Node, b: BlockID) {
    && m.chain == n.chain + [b] && m.sent == n.sent && !m.panicked
    && m.rs.height == n.rs.height + 1 && m.rs.round == 0 && m.rs.step == NEW_HEIGHT
    && m.rs.validators == p.vals(m.chain) && m.rs.lastValidators == n.rs.validators
    && m.rs.lastCommit.Some? && m.rs.lastCommit.value.maj23 == Some(b)
    && Unlocked(m.rs) && m.rs.validRound == -1 && m.rs.commitRound == -1 && m.rs.votes == NewHeightVoteSet()
    && m.rs.proposal == None && m.rs.proposalBlock == None && m.rs.proposalParts == None
    && TimeoutInfo(m.rs.height, 0, NEW_HEIGHT) in m.timeouts
  }

  /** The node knows which block was decided, and waits for its parts. */
  ghost predicate AwaitsBlock(n: Node, m: Node, round: nat, b: BlockID) {
    && m.chain == n.chain && m.sent == n.sent && !m.panicked
    && m.rs.height == n.rs.height && m.rs.round == n.rs.round && m.rs.step == COMMIT && m.rs.commitRound == round
    && m.rs.proposalBlock == None && HasHeader(m.rs.proposalParts, b)
  }

  /** With a majority of precommits for a block, at any round, a node that has the block decides, else waits for it. */
  ghost predicate CommitDuty(p: Params, n: Node, m: Node, round: nat, b: BlockID) {
    if LockedID(n.rs) == b || Held(n.rs) == b then Decides(p, n, m, b) else AwaitsBlock(n, m, round, b)
  }

  lemma TryFinalizeDone(p: Params, n: Node, log: seq<Vote>, b: BlockID)
    requires Inv(p, n, log) && MajoritiesValid(p, n.chain, log) && n.rs.step == COMMIT
    requires TwoThirdsMajority(n.rs.votes, n.rs.commitRound, Precommit) == Some(b)
    ensures var m := TryFinalizeCommit(p, n, n.rs.height);
      if Held(n.rs) == b then Decides(p, n, m, b) else m == n
  {
    hide SentInv, LockHistory, SentGrounded, Decided, ValidHeightVotes, LastCommitInv, Backed, LockInv, ValidBlockInv;
    hide TimeoutsInv, MajorityAfter, MajoritiesValid, FinalizeCommit, Progress;
    if Held(n.rs) == b {
      FinalizeCommitFields(p, n, log);
    }
  }

  lemma CommitDone(p: Params, n: Node, round: nat, log: seq<Vote>, b: BlockID)
    requires Inv(p, n, log) && MajoritiesValid(p, n.chain, log) && NEW_ROUND <= n.rs.step < COMMIT
    requires TwoThirdsMajority(n.rs.votes, round, Precommit) == Some(b) && b.BlockID?
    ensures CommitDuty(p, n, EnterCommit(p, n, n.rs.height, round), round, b)
  {
    NotPanicked(p, n, log);
    CommitPrepared(p, n, round, log);
    PrepareCommitBlockFields(p, n.rs, b);
    PreparedHolds(p, n.rs, b);
    hide Inv, MajoritiesValid, TryFinalizeCommit, TwoThirdsMajority, PrepareCommitBlock, Progress, BlocksInv, LockInv;
    var n1 := n.(rs := PrepareCommitBlock(n.rs, b).(step := COMMIT, commitRound := round));
    TryFinalizeDone(p, n1, log, b);
  }

  lemma PreparedHolds(p: Params, rs: RoundState, b: BlockID)
    requires BlocksInv(p, rs) && b.BlockID?
    ensures var rs' := PrepareCommitBlock(rs, b);
      if LockedID(rs) == b || Held(rs) == b then Held(rs') == b
      else rs'.proposalBlock == None && HasHeader(rs'.proposalParts, b)
  {
  }

  //---------------------------------------------------------------------------
  // Rounds and timeouts

  /** The node waits for transactions before it proposes. */
  predicate WaitsForTxs(o: Oracle, height: nat, round: nat) {
    o.waitForTxs && round == 0 && !o.needProofBlock(height)
  }

  /** A proposal goes with its block, and with the polka that it refers to. */
  ghost predicate ProposalReady(rs: RoundState) {
    && rs.proposal.Some? && rs.proposalBlock.Some?
    && (rs.proposal.value.polRound >= 0 ==> TwoThirdsMajority(rs.votes, rs.proposal.value.polRound, Prevote).Some?)
  }

  /** At the propose step the node waits for the proposal, and prevotes at once if it is ready. */
  ghost predicate ProposeDuty(p: Params, o: Oracle, n: Node, m: Node) {
    var waiting := n.(timeouts := n.timeouts + {TimeoutInfo(n.rs.height, n.rs.round, PROPOSE)},
                      rs := n.rs.(step := PROPOSE));
    if ProposalReady(n.rs) then PrevoteDuty(p, o, waiting, m) else m == waiting
  }

  lemma ProposeDone(p: Params, o: Oracle, n: Node)
    requires BlocksInv(p, n.rs) && n.rs.step < PROPOSE
    ensures ProposeDuty(p, o, n, EnterPropose(p, o, n, n.rs.height, n.rs.round))
  {
    hide EnterPrevote, PrevoteDuty, Coherent;
    var waiting := n.(timeouts := n.timeouts + {TimeoutInfo(n.rs.height, n.rs.round, PROPOSE)},
                      rs := n.rs.(step := PROPOSE));
    PrevoteDone(p, o, waiting);
  }

  /** A new round: votes for it and the next are collected, the proposal of another round is gone, the lock stays. */
  ghost predicate RoundStarted(n: Node, m: Node, round: nat) {
    && m.id == n.id && m.chain == n.chain && m.sent == n.sent && m.timeouts == n.timeouts && m.panicked == n.panicked
    && m.rs.height == n.rs.height && m.rs.round == round && m.rs.step == NEW_ROUND && SameLock(n.rs, m.rs)
    && m.rs.votes.round == round + 1 && round in m.rs.votes.sets && round + 1 in m.rs.votes.sets
    && (forall r, t :: GetSet(m.rs.votes, r, t) == GetSet(n.rs.votes, r, t))
    && !m.rs.triggeredTimeoutPrecommit
    && (if round == 0 then m.rs.proposal == n.rs.proposal && Held(m.rs) == Held(n.rs)
        else m.rs.proposal == None && m.rs.proposalBlock == None && m.rs.proposalParts == None)
  }

  ghost predicate NewRoundDuty(p: Params, o: Oracle, n: Node, m: Node, round: nat) {
    exists n1 ::
      && RoundStarted(n, n1, round)
      && if WaitsForTxs(o, n.rs.height, round)
         then m == if o.emptyBlocksInterval
                   then n1.(timeouts := n1.timeouts + {TimeoutInfo(n.rs.height, round, NEW_ROUND)}) else n1
         else ProposeDuty(p, o, n1, m)
  }

  lemma NewRoundDone(p: Params, o: Oracle, n: Node, round: nat, log: seq<Vote>)
    requires Inv(p, n, log) && (n.rs.round < round || (n.rs.round == round && n.rs.step == NEW_HEIGHT))
    ensures NewRoundDuty(p, o, n, EnterNewRound(p, o, n, n.rs.height, round), round)
  {
    StartRoundStep(p, n, round, log);
    StartsRound(p, n, round, log);
    var n1 := StartRound(n, round);
    NotPanicked(p, n1, log);
    NotPanicked(p, n, log);
    RoundInStep(p, n, log);
    hide Inv, StartRound, EnterPropose, BlocksInv, LockInv, Progress, RoundStarted, ProposeDuty;
    ProposeDone(p, o, n1);
  }

  lemma RoundInStep(p: Params, n: Node, log: seq<Vote>)
    requires Inv(p, n, log)
    ensures n.rs.votes.round == n.rs.round + 1 || n.rs.votes.round == n.rs.round == 0
  {
  }

  lemma StartsRound(p: Params, n: Node, round: nat, log: seq<Vote>)
    requires Inv(p, n, log) && n.rs.round <= round
    ensures RoundStarted(n, StartRound(n, round), round)
  {
    hide Inv, GetSet, SetRound, IdOf;
    RoundInStep(p, n, log);
    TracksUpTo(n.rs.votes, round + 1);
    SetRoundKeepsVotes(n.rs.validators, n.rs.votes, round + 1);
  }

  /** The timeout for the round is waited for, and the step is that of waiting. */
  ghost predicate WaitDuty(n: Node, m: Node, step: nat) {
    && TimeoutInfo(n.rs.height, n.rs.round, step) in m.timeouts && n.timeouts <= m.timeouts
    && m.rs.height == n.rs.height && m.rs.round == n.rs.round && m.rs.step == step
    && m.chain == n.chain && m.sent == n.sent && SameLock(n.rs, m.rs) && m.rs.votes == n.rs.votes
    && m.panicked == n.panicked
  }

  lemma WaitsDone(n: Node)
    ensures n.rs.step < PREVOTE_WAIT && HasTwoThirdsAny(n.rs.validators, n.rs.votes, n.rs.round, Prevote) ==>
      WaitDuty(n, EnterPrevoteWait(n, n.rs.height, n.rs.round), PREVOTE_WAIT)
    ensures !n.rs.triggeredTimeoutPrecommit &&
            HasTwoThirdsAny(n.rs.validators, n.rs.votes, n.rs.round, Precommit) ==>
      WaitDuty(n, EnterPrecommitWait(n, n.rs.height, n.rs.round), PRECOMMIT_WAIT)
  {
  }

  /** A timeout for what is past changes nothing. */
  ghost predicate Late(n: Node, ti: TimeoutInfo) {
    ti.height != n.rs.height || ti.round < n.rs.round || (ti.round == n.rs.round && ti.step < n.rs.step)
  }

  /** What every timeout that was scheduled leads to. */
  ghost predicate TimeoutDuty(p: Params, o: Oracle, n: Node, m: Node, ti: TimeoutInfo) {
    if Late(n, ti) then m == n
    else if ti.step == NEW_HEIGHT then n.rs.step == NEW_HEIGHT ==> NewRoundDuty(p, o, n, m, 0)
    else if ti.step == NEW_ROUND then n.rs.step < PROPOSE ==> ProposeDuty(p, o, n, m)
    else if ti.step == PROPOSE then n.rs.step < PREVOTE ==> PrevoteDuty(p, o, n, m)
    else if ti.step == PREVOTE_WAIT then n.rs.step < PRECOMMIT ==> PrecommitDuty(o, n, m)
    else ti.step == PRECOMMIT_WAIT && NextRoundDuty(p, o, n, m)
  }

  /** The node precommits if it has not, and goes on to the next round. */
  ghost predicate NextRoundDuty(p: Params, o: Oracle, n: Node, m: Node) {
    if n.rs.step < PRECOMMIT
    then exists n1 :: PrecommitDuty(o, n, n1) && NewRoundDuty(p, o, n1, m, n.rs.round + 1)
    else NewRoundDuty(p, o, n, m, n.rs.round + 1)
  }

  lemma TimeoutDone(p: Params, o: Oracle, n: Node, ti: TimeoutInfo, log: seq<Vote>)
    requires Inv(p, n, log) && MajoritiesValid(p, n.chain, log) && ti in n.timeouts
    ensures TimeoutDuty(p, o, n, HandleTimeout(p, o, n, ti), ti)
  {
    hide Inv, MajoritiesValid, EnterNewRound, EnterPropose, EnterPrevote, EnterPrecommit, BlocksInv, LockInv;
    hide NewRoundDuty, ProposeDuty, PrevoteDuty, PrecommitDuty, NextRoundDuty;
    NotPanicked(p, n, log);
    TimeoutsKnown(p, n, log, ti);
    if !Late(n, ti) {
      if ti.step == NEW_HEIGHT && n.rs.step == NEW_HEIGHT {
        NewRoundDone(p, o, n, 0, log);
      } else if ti.step == NEW_ROUND && n.rs.step < PROPOSE {
        ProposeDone(p, o, n);
      } else if ti.step == PROPOSE && n.rs.step < PREVOTE {
        PrevoteDone(p, o, n);
      } else if ti.step == PREVOTE_WAIT && n.rs.step < PRECOMMIT {
        PrecommitDone(p, o, n, log);
      } else if ti.step == PRECOMMIT_WAIT {
        NextRoundDone(p, o, n, log);
      }
    }
  }

  lemma NextRoundDone(p: Params, o: Oracle, n: Node, log: seq<Vote>)
    requires Inv(p, n, log) && MajoritiesValid(p, n.chain, log)
    ensures var n1 := EnterPrecommit(p, o, n, n.rs.height, n.rs.round);
      NextRoundDuty(p, o, n, EnterNewRound(p, o, n1, n.rs.height, n.rs.round + 1))
  {
    PrecommitKeepsRound(p, o, n, log);
    hide Inv, MajoritiesValid, EnterNewRound, EnterPrecommit, NewRoundDuty, PrecommitDuty, Progress;
    var n1 := EnterPrecommit(p, o, n, n.rs.height, n.rs.round);
    EnterPrecommitStep(p, o, n, n.rs.height, n.rs.round, log);
    NewRoundDone(p, o, n1, n.rs.round + 1, log);
    if n.rs.step < PRECOMMIT {
      PrecommitDone(p, o, n, log);
    }
  }

  lemma PrecommitKeepsRound(p: Params, o: Oracle, n: Node, log: seq<Vote>)
    ensures var m := EnterPrecommit(p, o, n, n.rs.height, n.rs.round);
      m.rs.height == n.rs.height && m.rs.round == n.rs.round && (n.rs.step >= PRECOMMIT ==> m == n)
  {
  }

  lemma TimeoutsKnown(p: Params, n: Node, log: seq<Vote>, ti: TimeoutInfo)
    requires Inv(p, n, log) && ti in n.timeouts
    ensures ti.step in {NEW_HEIGHT, NEW_ROUND, PROPOSE, PREVOTE_WAIT, PRECOMMIT_WAIT}
    ensures ti.height == n.rs.height ==> ti.round <= n.rs.round
    ensures n.rs.step == NEW_HEIGHT ==> n.rs.round == 0
  {
  }

  //---------------------------------------------------------------------------
  // Votes

  /** A polka drops an older lock on another block, and a held block with a polka of this round is the valid block. */
  ghost predicate PolkaNoted(rs: RoundState, rs': RoundState, round: nat, b: BlockID) {
    && rs'.height == rs.height && rs'.round == rs.round && rs'.step == rs.step && rs'.votes == rs.votes
    && rs'.validators == rs.validators && rs'.proposal == rs.proposal
    && (if LockedID(rs).BlockID? && LockedID(rs) != b && rs.lockedRound < round <= rs.round
        then Unlocked(rs') else SameLock(rs, rs'))
    && if b.BlockID? && rs.validRound < round == rs.round then
         if Held(rs) == b then
           Held(rs') == IdOf(rs'.validBlock, rs'.validParts) == b && rs'.validRound == round
         else rs'.proposalBlock == None && HasHeader(rs'.proposalParts, b) && rs'.validRound == rs.validRound
       else Held(rs') == Held(rs) && rs'.validRound == rs.validRound && rs'.validBlock == rs.validBlock
  }

  lemma PolkaNotedDone(rs: RoundState, round: nat, b: BlockID)
    requires WellHeld(rs)
    ensures PolkaNoted(rs, UpdateValidBlock(UnlockOnPolka(rs, round, b), round, b), round, b)
  {
    if b.BlockID? {
      MatchesOwn(rs.lockedBlock, rs.lockedParts, b);
      MatchesOwn(rs.proposalBlock, rs.proposalParts, b);
      hide BlockMatchesBlockID;
    }
  }

  /** What a counted prevote leads to, once a polka that it completes is noted. */
  ghost predicate PrevoteReaction(p: Params, o: Oracle, n: Node, m: Node, round: nat) {
    var polka := TwoThirdsMajority(n.rs.votes, round, Prevote);
    var any := HasTwoThirdsAny(n.rs.validators, n.rs.votes, round, Prevote);
    if n.rs.round < round && any then NewRoundDuty(p, o, n, m, round)
    else if n.rs.round == round && n.rs.step >= PREVOTE then
      if polka.Some? && (ProposalReady(n.rs) || polka.value == NilBlock) then
        if n.rs.step < PRECOMMIT then PrecommitDuty(o, n, m) else m == n
      else if any && n.rs.step < PREVOTE_WAIT then WaitDuty(n, m, PREVOTE_WAIT)
      else m == n
    else if ProposalReady(n.rs) && n.rs.proposal.value.polRound == round && n.rs.step < PREVOTE
    then PrevoteDuty(p, o, n, m)
    else m == n
  }

  ghost predicate PrevoteCounted(p: Params, o: Oracle, n: Node, m: Node, round: nat) {
    match TwoThirdsMajority(n.rs.votes, round, Prevote)
    case None => PrevoteReaction(p, o, n, m, round)
    case Some(b) =>
      exists rs :: PolkaNoted(n.rs, rs, round, b) && PrevoteReaction(p, o, n.(rs := rs), m, round)
  }

  lemma PrevoteReacts(p: Params, o: Oracle, n: Node, vote: Vote, log: seq<Vote>)
    requires Inv(p, n, log) && MajoritiesValid(p, n.chain, log)
    ensures PrevoteCounted(p, o, n, AfterPrevote(p, o, n, vote), vote.round)
  {
    hide Inv, MajoritiesValid, TwoThirdsMajority, UpdateValidBlock, UnlockOnPolka, WellHeld, PolkaNoted, Progress;
    hide EnterNewRound, EnterPrecommit, EnterPrevote, EnterPrevoteWait, HasTwoThirdsAny, PrevoteReaction;
    hide IsProposalComplete;
    var polka := TwoThirdsMajority(n.rs.votes, vote.round, Prevote);
    InvWellHeld(p, n, log);
    if polka.Some? {
      var rs := UpdateValidBlock(UnlockOnPolka(n.rs, vote.round, polka.value), vote.round, polka.value);
      PolkaNotedDone(n.rs, vote.round, polka.value);
      ConsensusSteps.NotePolka(p, n, vote.round, polka.value, log);
      PrevoteReactionDone(p, o, n.(rs := rs), vote.round, log);
    } else {
      PrevoteReactionDone(p, o, n, vote.round, log);
    }
  }

  /** A step that was taken is not taken again. */
  lemma StepsOnce(p: Params, o: Oracle, n: Node, round: nat)
    ensures n.rs.step >= PREVOTE ==> EnterPrevote(p, o, n, n.rs.height, n.rs.round) == n
    ensures n.rs.step >= PREVOTE_WAIT ==> EnterPrevoteWait(n, n.rs.height, n.rs.round) == n
    ensures n.rs.step >= PRECOMMIT ==> EnterPrecommit(p, o, n, n.rs.height, n.rs.round) == n
    ensures n.rs.triggeredTimeoutPrecommit ==> EnterPrecommitWait(n, n.rs.height, n.rs.round) == n
    ensures n.rs.step >= COMMIT ==> EnterCommit(p, n, n.rs.height, round) == n
    ensures round < n.rs.round || (round == n.rs.round && n.rs.step != NEW_HEIGHT) ==>
      EnterNewRound(p, o, n, n.rs.height, round) == n
    ensures round < n.rs.round ==> EnterPrecommitWait(n, n.rs.height, round) == n
    ensures round < n.rs.round ==> EnterPrecommit(p, o, n, n.rs.height, round) == n
  {
    hide PrevoteChoice, PrecommitChoice, StartRound, TwoThirdsMajority, HasTwoThirdsAny, TryFinalizeCommit;
  }

  lemma PrevoteReactionDone(p: Params, o: Oracle, n: Node, round: nat, log: seq<Vote>)
    requires Inv(p, n, log) && MajoritiesValid(p, n.chain, log)
    ensures PrevoteReaction(p, o, n, ReactToPrevote(p, o, n, round), round)
  {
    hide Inv, MajoritiesValid, EnterNewRound, EnterPrevote, EnterPrecommit, EnterPrevoteWait, BlocksInv, LockInv;
    hide NewRoundDuty, PrevoteDuty, PrecommitDuty, WaitDuty, TwoThirdsMajority, HasTwoThirdsAny, EnterCommit;
    hide EnterPrecommitWait;
    StepsOnce(p, o, n, round);
    WaitsDone(n);
    NotPanicked(p, n, log);
    if n.rs.round < round {
      NewRoundDone(p, o, n, round, log);
    }
    if n.rs.step < PREVOTE {
      PrevoteDone(p, o, n);
    } else if n.rs.step < PRECOMMIT {
      PrecommitDone(p, o, n, log);
    }
  }

  /** The node is in the round of the precommit, and has precommitted in it. */
  ghost predicate CaughtUp(p: Params, o: Oracle, n: Node, m: Node, round: nat) {
    exists n1 ::
      && InRound(p, o, n, n1, round)
      && if n1.rs.round == round && n1.rs.step < PRECOMMIT then PrecommitDuty(o, n1, m) else m == n1
  }

  ghost predicate InRound(p: Params, o: Oracle, n: Node, m: Node, round: nat) {
    if n.rs.round < round || (n.rs.round == round && n.rs.step == NEW_HEIGHT) then NewRoundDuty(p, o, n, m, round)
    else m == n
  }

  lemma InRoundDone(p: Params, o: Oracle, n: Node, round: nat, log: seq<Vote>)
    requires Inv(p, n, log)
    ensures InRound(p, o, n, EnterNewRound(p, o, n, n.rs.height, round), round)
  {
    StepsOnce(p, o, n, round);
    hide Inv, EnterNewRound, NewRoundDuty;
    if n.rs.round < round || (n.rs.round == round && n.rs.step == NEW_HEIGHT) {
      NewRoundDone(p, o, n, round, log);
    }
  }

  lemma CaughtUpDone(p: Params, o: Oracle, n: Node, round: nat, log: seq<Vote>)
    requires Inv(p, n, log) && MajoritiesValid(p, n.chain, log)
    ensures var n1 := EnterNewRound(p, o, n, n.rs.height, round);
      CaughtUp(p, o, n, EnterPrecommit(p, o, n1, n.rs.height, round), round)
  {
    InRoundDone(p, o, n, round, log);
    EnterNewRoundStep(p, o, n, n.rs.height, round, log);
    EnterNewRoundKeeps(p, o, n, round);
    hide Inv, MajoritiesValid, EnterNewRound, EnterPrecommit, InRound, PrecommitDuty, Progress;
    var n1 := EnterNewRound(p, o, n, n.rs.height, round);
    StepsOnce(p, o, n1, round);
    if n1.rs.round == round && n1.rs.step < PRECOMMIT {
      PrecommitDone(p, o, n1, log);
    }
  }

  lemma EnterNewRoundKeeps(p: Params, o: Oracle, n: Node, round: nat)
    ensures var m := EnterNewRound(p, o, n, n.rs.height, round);
      m.chain == n.chain && m.rs.height == n.rs.height
  {
    hide PrevoteChoice, TwoThirdsMajority;
  }

  /** The new height is begun at once if every validator has precommitted and the node does not wait for more. */
  ghost predicate AfterDecision(p: Params, o: Oracle, n: Node, m: Node, all: bool) {
    if o.skipTimeoutCommit && all then InRound(p, o, n, m, 0) else m == n
  }

  /**
    A majority of precommits, of any round, commits the block or, for nil, waits for the round to end; so does more
    than two thirds of the power without a majority, if the round is not past.
  */
  ghost predicate PrecommitCounted(p: Params, o: Oracle, n: Node, m: Node, round: nat) {
    match TwoThirdsMajority(n.rs.votes, round, Precommit)
    case None =>
      if n.rs.round <= round && HasTwoThirdsAny(n.rs.validators, n.rs.votes, round, Precommit)
      then exists n1 :: InRound(p, o, n, n1, round) && PrecommitWaited(n1, m, round)
      else m == n
    case Some(b) =>
      if b == NilBlock then exists n1 :: CaughtUp(p, o, n, n1, round) && PrecommitWaited(n1, m, round)
      else
        exists n1, n2 ::
          && CaughtUp(p, o, n, n1, round)
          && (if n1.rs.step < COMMIT then CommitDuty(p, n1, n2, round, b) else n2 == n1)
          && AfterDecision(p, o, n2, m, HasAll(n.rs.validators, GetSet(n.rs.votes, round, Precommit)))
  }

  ghost predicate PrecommitWaited(n: Node, m: Node, round: nat) {
    if n.rs.round == round && !n.rs.triggeredTimeoutPrecommit then WaitDuty(n, m, PRECOMMIT_WAIT) else m == n
  }

  lemma PrecommitWaitDone(n: Node, round: nat)
    requires HasTwoThirdsAny(n.rs.validators, n.rs.votes, round, Precommit) && n.rs.round >= round
    ensures PrecommitWaited(n, EnterPrecommitWait(n, n.rs.height, round), round)
  {
    hide HasTwoThirdsAny;
  }

  lemma PrecommitReacts(p: Params, o: Oracle, n: Node, vote: Vote, log: seq<Vote>)
    requires Inv(p, n, log) && MajoritiesValid(p, n.chain, log)
    ensures PrecommitCounted(p, o, n, AfterPrecommit(p, o, n, vote), vote.round)
  {
    hide Inv, MajoritiesValid, Progress, TwoThirdsMajority, HasTwoThirdsAny, HasAll, GetSet, InRound, CaughtUp;
    hide EnterNewRound, EnterPrecommit, EnterPrecommitWait, EnterCommit, CommitDuty, PrecommitWaited, AfterDecision;
    var round, maj := vote.round, TwoThirdsMajority(n.rs.votes, vote.round, Precommit);
    var n1 := EnterNewRound(p, o, n, n.rs.height, round);
    var n2 := EnterPrecommit(p, o, n1, n.rs.height, round);
    if maj.Some? {
      CaughtUpDone(p, o, n, round, log);
      if maj.value.BlockID? {
        var all := HasAll(n.rs.validators, GetSet(n.rs.votes, round, Precommit));
        CommittedDone(p, o, n, round, log, maj.value, all);
      } else {
        NilWaits(p, o, n, round, log);
      }
    } else if n.rs.round <= round && HasTwoThirdsAny(n.rs.validators, n.rs.votes, round, Precommit) {
      AnyWaits(p, o, n, round, log);
      InRoundDone(p, o, n, round, log);
    }
  }

  lemma AnyWaits(p: Params, o: Oracle, n: Node, round: nat, log: seq<Vote>)
    requires Inv(p, n, log) && n.rs.round <= round
    requires HasTwoThirdsAny(n.rs.validators, n.rs.votes, round, Precommit)
    ensures var n1 := EnterNewRound(p, o, n, n.rs.height, round);
      PrecommitWaited(n1, EnterPrecommitWait(n1, n.rs.height, round), round)
  {
    hide Inv, Progress, EnterNewRound, EnterPrecommitWait, PrecommitWaited, GetSet;
    EnterNewRoundVotes(p, o, n, n.rs.height, round);
    EnterNewRoundStep(p, o, n, n.rs.height, round, log);
    PrecommitWaitDone(EnterNewRound(p, o, n, n.rs.height, round), round);
  }

  lemma NilWaits(p: Params, o: Oracle, n: Node, round: nat, log: seq<Vote>)
    requires Inv(p, n, log) && TwoThirdsMajority(n.rs.votes, round, Precommit).Some?
    ensures var n1 := EnterNewRound(p, o, n, n.rs.height, round);
      var n2 := EnterPrecommit(p, o, n1, n.rs.height, round);
      PrecommitWaited(n2, EnterPrecommitWait(n2, n.rs.height, round), round)
  {
    assert ValidHeightVotes(n.rs.validators, n.rs.votes);
    hide Inv, Progress, EnterNewRound, EnterPrecommit, EnterPrecommitWait, PrecommitWaited, GetSet, ValidHeightVotes;
    MajorityIsAny(n.rs.validators, n.rs.votes, round, Precommit);
    EnterNewRoundVotes(p, o, n, n.rs.height, round);
    EnterNewRoundStep(p, o, n, n.rs.height, round, log);
    var n1 := EnterNewRound(p, o, n, n.rs.height, round);
    EnterPrecommitVotes(p, o, n1, n.rs.height, round);
    PrecommitWaitDone(EnterPrecommit(p, o, n1, n.rs.height, round), round);
  }

  lemma CommittedDone(p: Params, o: Oracle, n: Node, round: nat, log: seq<Vote>, b: BlockID, all: bool)
    requires Inv(p, n, log) && MajoritiesValid(p, n.chain, log)
    requires TwoThirdsMajority(n.rs.votes, round, Precommit) == Some(b) && b.BlockID?
    ensures var n1 := EnterNewRound(p, o, n, n.rs.height, round);
      var n2 := EnterPrecommit(p, o, n1, n.rs.height, round);
      var n3 := EnterCommit(p, n2, n.rs.height, round);
      var m := if o.skipTimeoutCommit && all then EnterNewRound(p, o, n3, n3.rs.height, 0) else n3;
      && (if n2.rs.step < COMMIT then CommitDuty(p, n2, n3, round, b) else n3 == n2)
      && AfterDecision(p, o, n3, m, all)
  {
    hide Inv, MajoritiesValid, Progress, EnterNewRound, EnterPrecommit, EnterCommit, CommitDuty, GetSet, InRound;
    MoveToPrecommit(p, o, n, round, log);
    var n1 := EnterNewRound(p, o, n, n.rs.height, round);
    var n2 := EnterPrecommit(p, o, n1, n.rs.height, round);
    var n3 := EnterCommit(p, n2, n.rs.height, round);
    StepsOnce(p, o, n2, round);
    if n2.rs.step < COMMIT {
      CommitDone(p, n2, round, log, b);
    }
    EnterCommitStep(p, n2, n2.rs.height, round, log);
    InRoundDone(p, o, n3, 0, log);
  }

  /** A vote of this height is counted, and what it leads to follows; one that is not counted leads to nothing. */
  lemma VoteDone(p: Params, o: Oracle, n: Node, vote: Vote, peer: Peer, log: seq<Vote>)
    requires Inv(p, n, log) && MajoritiesValid(p, n.chain, log) && vote in log && vote.height == n.rs.height
    ensures var (votes, added) := AddToHeight(n.rs.validators, n.rs.votes, vote, peer);
      var n1, m := n.(rs := n.rs.(votes := votes)), AddVote(p, o, n, vote, peer);
      if !added then m == n1
      else if vote.kind == Prevote then PrevoteCounted(p, o, n1, m, vote.round)
      else PrecommitCounted(p, o, n1, m, vote.round)
  {
    hide Inv, MajoritiesValid, Progress, AddToHeight, AfterPrevote, AfterPrecommit, PrevoteCounted, PrecommitCounted;
    var n1 := n.(rs := n.rs.(votes := AddToHeight(n.rs.validators, n.rs.votes, vote, peer).0));
    CollectVote(p, n, vote, peer, log);
    PrevoteReacts(p, o, n1, vote, log);
    PrecommitReacts(p, o, n1, vote, log);
  }

  /** A late precommit of the decided round is added to the last commit while the node waits to begin the height. */
  lemma LastCommitDone(p: Params, o: Oracle, n: Node, vote: Vote, peer: Peer, log: seq<Vote>)
    requires Inv(p, n, log) && vote.height + 1 == n.rs.height && vote.kind == Precommit
    ensures var m := AddVote(p, o, n, vote, peer);
      if n.rs.step == NEW_HEIGHT && n.rs.lastCommit.Some? && n.rs.lastCommit.value.round == vote.round then
        var (vs, added) := AddToSet(n.rs.lastValidators, n.rs.lastCommit.value, vote.validator, vote.blockID);
        var n1 := n.(rs := n.rs.(lastCommit := Some(vs)));
        AfterDecision(p, o, n1, m, added && HasAll(n.rs.lastValidators, vs))
      else m == n
  {
    hide Inv, Progress, AddToSet, EnterNewRound, InRound, HasAll;
    if n.rs.lastCommit.Some? {
      var (vs, added) := AddToSet(n.rs.lastValidators, n.rs.lastCommit.value, vote.validator, vote.blockID);
      var n1 := n.(rs := n.rs.(lastCommit := Some(vs)));
      LastCommitValid(p, n, vote, log);
      LastCommitMove(p, n, n1, log);
      InRoundDone(p, o, n1, 0, log);
    }
  }

  lemma LastCommitValid(p: Params, n: Node, vote: Vote, log: seq<Vote>)
    requires Inv(p, n, log) && n.rs.lastCommit.Some?
    ensures var vs := AddToSet(n.rs.lastValidators, n.rs.lastCommit.value, vote.validator, vote.blockID).0;
      LastCommitInv(n.chain, Some(vs), n.rs.lastValidators)
  {
    hide BlocksInv, LockInv, ValidBlockInv, CommitInv, SentInv, LockHistory, SentGrounded, Decided, Backed, TimeoutsInv;
    hide AddToSet, ValidVoteSet;
    AddToSetValid(n.rs.lastValidators, n.rs.lastCommit.value, vote.validator, vote.blockID);
  }

  //---------------------------------------------------------------------------
  // Proposals, parts and transactions

  /** The first proposal of the round that is in order is taken, and its parts are waited for. */
  lemma ProposalDone(n: Node, proposal: Proposal, accepted: bool)
    ensures var m := SetProposal(n, proposal, accepted);
      if n.rs.proposal == None && accepted && proposal.blockID.BlockID? && proposal.height == n.rs.height &&
         proposal.round == n.rs.round && -1 <= proposal.polRound < proposal.round
      then
        && m == n.(rs := n.rs.(proposal := Some(proposal), proposalParts := m.rs.proposalParts))
        && m.rs.proposalParts == if n.rs.proposalParts.Some? then n.rs.proposalParts
                                 else Some(PartSet(proposal.blockID.parts, {}))
      else m == n
  {
  }

  /** Transactions to propose: the node that waited for them proposes, or will once the last commit is in. */
  ghost predicate TxsDuty(p: Params, o: Oracle, n: Node, m: Node) {
    if n.rs.round == 0 && n.rs.step == NEW_ROUND then ProposeDuty(p, o, n, m)
    else if n.rs.round == 0 && n.rs.step == NEW_HEIGHT && !o.needProofBlock(n.rs.height)
    then m == n.(timeouts := n.timeouts + {TimeoutInfo(n.rs.height, 0, NEW_ROUND)})
    else m == n
  }

  lemma TxsDone(p: Params, o: Oracle, n: Node)
    requires BlocksInv(p, n.rs)
    ensures TxsDuty(p, o, n, HandleTxsAvailable(p, o, n))
  {
    hide EnterPropose, ProposeDuty, BlocksInv;
    if n.rs.step < PROPOSE {
      ProposeDone(p, o, n);
    }
  }

  /** A held block with a polka of this round is the valid block. */
  ghost predicate ValidNoted(n: Node, m: Node) {
    var polka := TwoThirdsMajority(n.rs.votes, n.rs.round, Prevote);
    if polka.Some? && polka.value.BlockID? && Held(n.rs) == polka.value && n.rs.validRound < n.rs.round
    then m == n.(rs := n.rs.(validRound := n.rs.round, validBlock := n.rs.proposalBlock,
                             validParts := n.rs.proposalParts))
    else m == n
  }

  /** What the last part of a block leads to, once the valid block is noted. */
  ghost predicate CompleteReaction(p: Params, o: Oracle, n: Node, m: Node) {
    if n.rs.step <= PROPOSE && ProposalReady(n.rs) then
      if TwoThirdsMajority(n.rs.votes, n.rs.round, Prevote).Some?
      then exists n1 :: PrevoteDuty(p, o, n, n1) && PrecommitDuty(o, n1, m)
      else PrevoteDuty(p, o, n, m)
    else if n.rs.step == COMMIT then
      match TwoThirdsMajority(n.rs.votes, n.rs.commitRound, Precommit)
      case Some(b) => if Held(n.rs) == b then Decides(p, n, m, b) else m == n
      case None => m == n
    else m == n
  }

  ghost predicate CompleteDuty(p: Params, o: Oracle, n: Node, m: Node) {
    exists n1 :: ValidNoted(n, n1) && CompleteReaction(p, o, n1, m)
  }

  lemma CompleteDone(p: Params, o: Oracle, n: Node, log: seq<Vote>)
    requires Inv(p, n, log) && MajoritiesValid(p, n.chain, log)
    ensures CompleteDuty(p, o, n, HandleCompleteProposal(p, o, n, n.rs.height))
  {
    InvWellHeld(p, n, log);
    hide Inv, MajoritiesValid, Progress, EnterPrevote, EnterPrecommit, TryFinalizeCommit, TwoThirdsMajority;
    hide CompleteReaction, NoteValidBlock, ValidNoted;
    var n1 := NoteValidBlock(n);
    ValidNotedDone(n);
    NoteValidBlockStep(p, n, log);
    CompleteReactionDone(p, o, n1, log);
  }

  lemma ValidNotedDone(n: Node)
    requires WellHeld(n.rs)
    ensures ValidNoted(n, NoteValidBlock(n)) && NoteValidBlock(n).rs.votes == n.rs.votes
    ensures NoteValidBlock(n).rs.height == n.rs.height && NoteValidBlock(n).rs.round == n.rs.round
    ensures NoteValidBlock(n).chain == n.chain
  {
    hide TwoThirdsMajority;
    var polka := TwoThirdsMajority(n.rs.votes, n.rs.round, Prevote);
    if polka.Some? && polka.value.BlockID? {
      MatchesOwn(n.rs.proposalBlock, n.rs.proposalParts, polka.value);
    }
    hide BlockMatchesBlockID;
  }

  lemma CompleteReactionDone(p: Params, o: Oracle, n: Node, log: seq<Vote>)
    requires Inv(p, n, log) && MajoritiesValid(p, n.chain, log)
    ensures CompleteReaction(p, o, n, ReactToBlock(p, o, n, n.rs.height))
  {
    NotPanicked(p, n, log);
    InvCommits(p, n, log);
    hide Inv, MajoritiesValid, Progress, EnterPrevote, EnterPrecommit, TryFinalizeCommit, TwoThirdsMajority;
    hide PrecommitDuty, Decides, BlocksInv, LockInv, CommitInv;
    if n.rs.step <= PROPOSE {
      PrevoteDone(p, o, n);
      var n2 := EnterPrevote(p, o, n, n.rs.height, n.rs.round);
      EnterPrevoteStep(p, o, n, n.rs.height, n.rs.round, log);
      PrecommitDone(p, o, n2, log);
    } else if n.rs.step == COMMIT {
      var maj := TwoThirdsMajority(n.rs.votes, n.rs.commitRound, Precommit);
      TryFinalizeDone(p, n, log, maj.value);
    }
  }

  lemma InvCommits(p: Params, n: Node, log: seq<Vote>)
    requires Inv(p, n, log)
    ensures n.rs.step == COMMIT ==> TwoThirdsMajority(n.rs.votes, n.rs.commitRound, Precommit).Some?
  {
  }

  /** A part that belongs to the block waited for and is not there yet. */
  ghost predicate WantedPart(n: Node, height: nat, part: Part) {
    && n.rs.height == height && n.rs.proposalParts.Some?
    && part.header == n.rs.proposalParts.value.header && part.index < part.header.total
    && part.index !in n.rs.proposalParts.value.have
  }

  /** The node with the part, and with the block if it was the last one, not too many bytes, and decodes. */
  ghost function WithNewPart(p: Params, n: Node, part: Part, oversize: bool): Node
    requires n.rs.proposalParts.Some?
  {
    var have := n.rs.proposalParts.value.have + {part.index};
    var block := if |have| == part.header.total && !oversize && p.decode(part.header).Some?
                 then p.decode(part.header) else n.rs.proposalBlock;
    n.(rs := n.rs.(proposalParts := Some(PartSet(part.header, have)), proposalBlock := block))
  }

  lemma PartDone(p: Params, o: Oracle, n: Node, height: nat, part: Part, oversize: bool, log: seq<Vote>)
    requires Inv(p, n, log) && MajoritiesValid(p, n.chain, log)
    ensures var m := HandleBlockPart(p, o, n, height, part, oversize);
      if !WantedPart(n, height, part) then m == n
      else
        var n1 := WithNewPart(p, n, part, oversize);
        if |n1.rs.proposalParts.value.have| == part.header.total then CompleteDuty(p, o, n1, m) else m == n1
  {
    hide Inv, MajoritiesValid, Progress, HandleCompleteProposal, CompleteDuty;
    AddProposalBlockPartStep(p, n, height, part, oversize, log);
    var n1 := AddProposalBlockPart(p, n, height, part, oversize).0;
    CompleteDone(p, o, n1, log);
  }
}
