/**
  The consensus state object and its handlers, step by step as the receive routine
  runs them. Each handler is proved to compute the function of the same name in module
  Consensus, and to keep the invariant of module ConsensusInvariant: with any log of the
  votes signed so far in which majorities are for valid blocks, it does not panic, drops
  a lock only for a later polka, and signs only what its earlier votes allow.
*/
module ConsensusState {
  import opened Power
  import opened VoteSets
  import Spec = Consensus
  import Steps = ConsensusSteps
  import opened ConsensusDuties
  import opened Consensus
  import opened ConsensusInvariant

  /** From a state that is sound by the votes signed so far, a step leads to a sound one and is justified. */
  ghost predicate Keeps(p: Params, n: Node, m: Node, log: seq<Vote>) {
    Inv(p, n, log) && MajoritiesValid(p, n.chain, log) ==> Inv(p, m, log) && Progress(p, n, m, log)
  }

  ghost predicate MajorityForBlock(votes: HeightVoteSet, round: nat) {
    var maj := TwoThirdsMajority(votes, round, Precommit);
    maj.Some? && maj.value.BlockID?
  }

  /** The node is in a round, and has not begun to commit the block that precommits of some round are for. */
  ghost predicate CommitReady(rs: RoundState, round: nat) {
    NEW_ROUND <= rs.step < COMMIT && MajorityForBlock(rs.votes, round)
  }

  /** What a majority of the precommits of a round is for. */
  ghost function Committed(votes: HeightVoteSet, round: int): BlockID {
    var maj := TwoThirdsMajority(votes, round, Precommit);
    if maj.Some? then maj.value else NilBlock
  }

  /** The node holds the block that the precommits of the commit round are for. */
  ghost predicate HoldsCommitted(rs: RoundState) {
    var maj := TwoThirdsMajority(rs.votes, rs.commitRound, Precommit);
    maj.Some? && BlockMatchesBlockID(rs.proposalBlock, rs.proposalParts, maj.value)
  }

  class State {
    const p: Params
    const id: Address
    var rs: RoundState
    var chain: seq<BlockID>        // finalized blocks: the latest application state
    var sent: seq<Vote>            // votes pushed to the internal message queue
    var timeouts: set<TimeoutInfo> // timeouts handed to the ticker
    var panicked: bool

    function Snapshot(): Node
      reads this
    {
      Node(id, rs, chain, sent, timeouts, panicked)
    }

    ghost predicate Sound(log: seq<Vote>)
      reads this
    {
      Inv(p, Snapshot(), log) && MajoritiesValid(p, chain, log)
    }

    constructor (p: Params, id: Address)
      ensures Snapshot() == InitNode(p, id) && this.p == p
      ensures 1 <= p.initialHeight && p.vals([]).Valid() ==> Inv(p, Snapshot(), [])
    {
      hide Inv;
      if 1 <= p.initialHeight && p.vals([]).Valid() {
        Steps.InitNodeInv(p, id);
      }
      this.p := p;
      this.id := id;
      rs := NewRoundState(p, [], None, p.vals([]));
      chain := [];
      sent := [];
      timeouts := {TimeoutInfo(p.initialHeight, 0, NEW_HEIGHT)};
      panicked := false;
    }

    method Panic()
      modifies this`panicked
      ensures Snapshot() == Spec.Panic(old(Snapshot()))
    {
      panicked := true;
    }

    method UpdateRoundStep(round: nat, step: nat)
      modifies this`rs
      ensures Snapshot() == Spec.UpdateRoundStep(old(Snapshot()), round, step)
    {
      rs := rs.(round := round);
      rs := rs.(step := step);
    }

    method ScheduleTimeout(height: nat, round: nat, step: nat)
      modifies this`timeouts
      ensures Snapshot() == Spec.ScheduleTimeout(old(Snapshot()), height, round, step)
    {
      timeouts := timeouts + {TimeoutInfo(height, round, step)};
    }

    method SignAddVote(o: Oracle, kind: VoteType, b: BlockID)
      modifies this`sent
      ensures Snapshot() == Spec.SignAddVote(o, old(Snapshot()), kind, b)
    {
      if id !in rs.validators.power {
        return;
      }
      var vote := Vote(rs.height, rs.round, kind, b, id);
      if o.signs(vote) {
        sent := sent + [vote];
      }
    }

    method EnterNewRound(o: Oracle, height: nat, round: nat, ghost log: seq<Vote>)
      modifies this
      ensures Snapshot() == Spec.EnterNewRound(p, o, old(Snapshot()), height, round)
      ensures Keeps(p, old(Snapshot()), Snapshot(), log)
    {
      hide Inv, Progress, MajoritiesValid;
      assert Keeps(p, Snapshot(), Spec.EnterNewRound(p, o, Snapshot(), height, round), log) by {
        hide Spec.EnterNewRound;
        if Sound(log) {
          Steps.EnterNewRoundStep(p, o, Snapshot(), height, round, log);
        }
      }
      hide Keeps, Spec.EnterPropose, SetRound, Spec.ScheduleTimeout;
      if rs.height != height || round < rs.round || (rs.round == round && rs.step != NEW_HEIGHT) {
        return;
      }
      if rs.votes.round != 0 && round + 1 < rs.votes.round - 1 {
        Panic();
        return;
      }
      UpdateRoundStep(round, NEW_ROUND);
      if round != 0 {
        rs := rs.(proposal := None);
        rs := rs.(proposalBlock := None);
        rs := rs.(proposalParts := None);
      }
      var votes := TrackRounds(rs.votes, round + 1);
      rs := rs.(votes := votes);
      rs := rs.(triggeredTimeoutPrecommit := false);
      assert Snapshot() == StartRound(old(Snapshot()), round);
      hide StartRound;
      if o.waitForTxs && round == 0 && !o.needProofBlock(height) {
        if o.emptyBlocksInterval {
          ScheduleTimeout(height, round, NEW_ROUND);
        }
      } else {
        EnterPropose(o, height, round, log);
      }
    }

    method EnterPropose(o: Oracle, height: nat, round: nat, ghost log: seq<Vote>)
      modifies this
      ensures Snapshot() == Spec.EnterPropose(p, o, old(Snapshot()), height, round)
      ensures old(height == rs.height ==> round <= rs.round) ==>
        Keeps(p, old(Snapshot()), Snapshot(), log)
    {
      hide Inv, Progress, MajoritiesValid;
      assert (height == rs.height ==> round <= rs.round) ==>
        Keeps(p, Snapshot(), Spec.EnterPropose(p, o, Snapshot(), height, round), log) by {
        hide Spec.EnterPropose;
        if (height == rs.height ==> round <= rs.round) && Sound(log) {
          Steps.EnterProposeStep(p, o, Snapshot(), height, round, log);
        }
      }
      hide Keeps, Spec.EnterPrevote, IsProposalComplete;
      if rs.height != height || round < rs.round || (rs.round == round && PROPOSE <= rs.step) {
        return;
      }
      ScheduleTimeout(height, round, PROPOSE);
      UpdateRoundStep(round, PROPOSE);
      if IsProposalComplete(rs) {
        EnterPrevote(o, height, rs.round, log);
      }
    }

    method EnterPrevote(o: Oracle, height: nat, round: nat, ghost log: seq<Vote>)
      modifies this
      ensures Snapshot() == Spec.EnterPrevote(p, o, old(Snapshot()), height, round)
      ensures old(height == rs.height ==> round <= rs.round) ==>
        Keeps(p, old(Snapshot()), Snapshot(), log)
      ensures old(Sound(log) && height == rs.height && round == rs.round && rs.step < PREVOTE) ==>
        PrevoteDuty(p, o, old(Snapshot()), Snapshot())
    {
      hide Inv, Progress, MajoritiesValid;
      assert (height == rs.height ==> round <= rs.round) ==>
        Keeps(p, Snapshot(), Spec.EnterPrevote(p, o, Snapshot(), height, round), log) by {
        hide Spec.EnterPrevote;
        if (height == rs.height ==> round <= rs.round) && Sound(log) {
          Steps.EnterPrevoteStep(p, o, Snapshot(), height, round, log);
        }
      }
      assert Sound(log) && height == rs.height && round == rs.round && rs.step < PREVOTE ==>
        PrevoteDuty(p, o, Snapshot(), Spec.EnterPrevote(p, o, Snapshot(), height, round)) by {
        hide Spec.EnterPrevote, PrevoteDuty, BlocksInv;
        if Sound(log) && height == rs.height && round == rs.round && rs.step < PREVOTE {
          NotPanicked(p, Snapshot(), log);
          PrevoteDone(p, o, Snapshot());
        }
      }
      hide PrevoteDuty, Keeps, PrevoteChoice, Spec.SignAddVote;
      if rs.height != height || round < rs.round || (rs.round == round && PREVOTE <= rs.step) {
        return;
      }
      DoPrevote(o);
      UpdateRoundStep(round, PREVOTE);
    }

    method DoPrevote(o: Oracle)
      modifies this`sent
      ensures Snapshot() == Spec.SignAddVote(o, old(Snapshot()), Prevote, PrevoteChoice(p, o, old(Snapshot())))
    {
      if rs.lockedBlock.Some? {
        SignAddVote(o, Prevote, IdOf(rs.lockedBlock, rs.lockedParts));
        return;
      }
      if rs.proposalBlock == None {
        SignAddVote(o, Prevote, NilBlock);
        return;
      }
      if !p.valid(chain, rs.proposalBlock.value) {
        SignAddVote(o, Prevote, NilBlock);
        return;
      }
      if !o.accepts(rs.proposalBlock.value) {
        SignAddVote(o, Prevote, NilBlock);
        return;
      }
      SignAddVote(o, Prevote, IdOf(rs.proposalBlock, rs.proposalParts));
    }

    method EnterPrevoteWait(height: nat, round: nat, ghost log: seq<Vote>)
      modifies this
      ensures Snapshot() == Spec.EnterPrevoteWait(old(Snapshot()), height, round)
      ensures old(round <= rs.round && HasTwoThirdsAny(rs.validators, rs.votes, round, Prevote)) ==>
        Keeps(p, old(Snapshot()), Snapshot(), log)
    {
      hide Inv, Progress, MajoritiesValid;
      assert round <= rs.round && HasTwoThirdsAny(rs.validators, rs.votes, round, Prevote) ==>
        Keeps(p, Snapshot(), Spec.EnterPrevoteWait(Snapshot(), height, round), log) by {
        hide Spec.EnterPrevoteWait;
        if round <= rs.round && HasTwoThirdsAny(rs.validators, rs.votes, round, Prevote) && Sound(log) {
          Steps.EnterPrevoteWaitStep(p, Snapshot(), height, round, log);
        }
      }
      hide Keeps;
      if rs.height != height || round < rs.round || (rs.round == round && PREVOTE_WAIT <= rs.step) {
        return;
      }
      if !HasTwoThirdsAny(rs.validators, rs.votes, round, Prevote) {
        Panic();
        return;
      }
      ScheduleTimeout(height, round, PREVOTE_WAIT);
      UpdateRoundStep(round, PREVOTE_WAIT);
    }

    method Unlock()
      modifies this`rs
      ensures rs == Spec.Unlock(old(rs))
    {
      rs := rs.(lockedRound := -1);
      rs := rs.(lockedBlock := None);
      rs := rs.(lockedParts := None);
    }

    /** Moves the lock as the prevotes of the round demand, and gives what to precommit; None is a panic. */
    method ChoosePrecommit(round: nat) returns (r: Option<BlockID>)
      modifies this`rs
      ensures match PrecommitChoice(p, old(Snapshot()), round)
        case None => r == None && rs == old(rs)
        case Some((chosen, b)) => r == Some(b) && rs == chosen
    {
      hide TwoThirdsMajority, PolRound;
      var polka := TwoThirdsMajority(rs.votes, round, Prevote);
      if polka == None {
        return Some(NilBlock);
      }
      var b := polka.value;
      var polRound := FindPolRound(rs.votes);
      if polRound < round {
        return None;
      }
      if b.NilBlock? {
        if rs.lockedBlock.Some? {
          Unlock();
        }
        return Some(NilBlock);
      }
      if BlockMatchesBlockID(rs.lockedBlock, rs.lockedParts, b) {
        rs := rs.(lockedRound := round);
        return Some(b);
      }
      if BlockMatchesBlockID(rs.proposalBlock, rs.proposalParts, b) {
        if !p.valid(chain, rs.proposalBlock.value) {
          return None;
        }
        rs := rs.(lockedRound := round);
        rs := rs.(lockedBlock := rs.proposalBlock);
        rs := rs.(lockedParts := rs.proposalParts);
        return Some(b);
      }
      Unlock();
      if !HasHeader(rs.proposalParts, b) {
        rs := rs.(proposalBlock := None);
        rs := rs.(proposalParts := Some(NewPartSet(b.parts)));
      }
      return Some(NilBlock);
    }

    method EnterPrecommit(o: Oracle, height: nat, round: nat, ghost log: seq<Vote>)
      modifies this
      ensures Snapshot() == Spec.EnterPrecommit(p, o, old(Snapshot()), height, round)
      ensures old(height == rs.height ==> round <= rs.round) ==>
        Keeps(p, old(Snapshot()), Snapshot(), log)
      ensures old(Sound(log) && height == rs.height && round == rs.round && rs.step < PRECOMMIT) ==>
        PrecommitDuty(o, old(Snapshot()), Snapshot())
    {
      hide Inv, Progress, MajoritiesValid;
      assert (height == rs.height ==> round <= rs.round) ==>
        Keeps(p, Snapshot(), Spec.EnterPrecommit(p, o, Snapshot(), height, round), log) by {
        hide Spec.EnterPrecommit;
        if (height == rs.height ==> round <= rs.round) && Sound(log) {
          Steps.EnterPrecommitStep(p, o, Snapshot(), height, round, log);
        }
      }
      assert Sound(log) && height == rs.height && round == rs.round && rs.step < PRECOMMIT ==>
        PrecommitDuty(o, Snapshot(), Spec.EnterPrecommit(p, o, Snapshot(), height, round)) by {
        hide Spec.EnterPrecommit, PrecommitDuty;
        if Sound(log) && height == rs.height && round == rs.round && rs.step < PRECOMMIT {
          PrecommitDone(p, o, Snapshot(), log);
        }
      }
      hide PrecommitDuty, Keeps, PrecommitChoice, Spec.SignAddVote, Spec.UpdateRoundStep;
      if rs.height != height || round < rs.round || (rs.round == round && PRECOMMIT <= rs.step) {
        return;
      }
      var choice := ChoosePrecommit(round);
      if choice == None {
        Panic();
        return;
      }
      SignAddVote(o, Precommit, choice.value);
      UpdateRoundStep(round, PRECOMMIT);
    }

    method EnterPrecommitWait(height: nat, round: nat, ghost log: seq<Vote>)
      modifies this
      ensures Snapshot() == Spec.EnterPrecommitWait(old(Snapshot()), height, round)
      ensures old(round <= rs.round && HasTwoThirdsAny(rs.validators, rs.votes, round, Precommit)) ==>
        Keeps(p, old(Snapshot()), Snapshot(), log)
    {
      hide Inv, Progress, MajoritiesValid;
      assert round <= rs.round && HasTwoThirdsAny(rs.validators, rs.votes, round, Precommit) ==>
        Keeps(p, Snapshot(), Spec.EnterPrecommitWait(Snapshot(), height, round), log) by {
        hide Spec.EnterPrecommitWait;
        if round <= rs.round && HasTwoThirdsAny(rs.validators, rs.votes, round, Precommit) && Sound(log) {
          Steps.EnterPrecommitWaitStep(p, Snapshot(), height, round, log);
        }
      }
      hide Keeps;
      if rs.height != height || round < rs.round || (rs.round == round && rs.triggeredTimeoutPrecommit) {
        return;
      }
      if !HasTwoThirdsAny(rs.validators, rs.votes, round, Precommit) {
        Panic();
        return;
      }
      ScheduleTimeout(height, round, PRECOMMIT_WAIT);
      rs := rs.(triggeredTimeoutPrecommit := true);
      UpdateRoundStep(round, PRECOMMIT_WAIT);
    }

    method EnterCommit(height: nat, commitRound: nat, ghost log: seq<Vote>)
      modifies this
      ensures Snapshot() == Spec.EnterCommit(p, old(Snapshot()), height, commitRound)
      ensures old(height == rs.height && NEW_ROUND <= rs.step && MajorityForBlock(rs.votes, commitRound)) ==>
        Keeps(p, old(Snapshot()), Snapshot(), log)
      ensures old(Sound(log) && height == rs.height && CommitReady(rs, commitRound)) ==>
        CommitDuty(p, old(Snapshot()), Snapshot(), commitRound, Committed(old(rs.votes), commitRound))
    {
      hide Inv, Progress, MajoritiesValid;
      assert height == rs.height && NEW_ROUND <= rs.step && MajorityForBlock(rs.votes, commitRound) ==>
        Keeps(p, Snapshot(), Spec.EnterCommit(p, Snapshot(), height, commitRound), log) by {
        hide Spec.EnterCommit;
        if height == rs.height && NEW_ROUND <= rs.step && MajorityForBlock(rs.votes, commitRound) && Sound(log) {
          Steps.EnterCommitStep(p, Snapshot(), height, commitRound, log);
        }
      }
      assert Sound(log) && height == rs.height && CommitReady(rs, commitRound) ==>
        CommitDuty(p, Snapshot(), Spec.EnterCommit(p, Snapshot(), height, commitRound), commitRound,
                   Committed(rs.votes, commitRound)) by {
        hide Spec.EnterCommit, CommitDuty;
        if Sound(log) && height == rs.height && CommitReady(rs, commitRound) {
          CommitDone(p, Snapshot(), commitRound, log, Committed(rs.votes, commitRound));
        }
      }
      hide CommitDuty, Keeps, Spec.TryFinalizeCommit, TwoThirdsMajority;
      if rs.height != height || COMMIT <= rs.step {
        return;
      }
      var maj := TwoThirdsMajority(rs.votes, commitRound, Precommit);
      if maj == None {
        Panic();
        return;
      }
      var b := maj.value;
      if BlockMatchesBlockID(rs.lockedBlock, rs.lockedParts, b) {
        rs := rs.(proposalBlock := rs.lockedBlock);
        rs := rs.(proposalParts := rs.lockedParts);
      }
      if !BlockMatchesBlockID(rs.proposalBlock, rs.proposalParts, b) {
        rs := rs.(proposalBlock := None);
        if b.BlockID? && !HasHeader(rs.proposalParts, b) {
          rs := rs.(proposalParts := Some(NewPartSet(b.parts)));
        }
      }
      UpdateRoundStep(rs.round, COMMIT);
      rs := rs.(commitRound := commitRound);
      TryFinalizeCommit(height, log);
    }

    method TryFinalizeCommit(height: nat, ghost log: seq<Vote>)
      modifies this
      ensures Snapshot() == Spec.TryFinalizeCommit(p, old(Snapshot()), height)
      ensures old(height == rs.height && rs.step == COMMIT) ==>
        Keeps(p, old(Snapshot()), Snapshot(), log)
      ensures old(Sound(log) && height == rs.height && rs.step == COMMIT && HoldsCommitted(rs)) ==>
        Decides(p, old(Snapshot()), Snapshot(), Committed(old(rs.votes), old(rs.commitRound)))
    {
      hide Inv, Progress, MajoritiesValid;
      assert height == rs.height && rs.step == COMMIT ==>
        Keeps(p, Snapshot(), Spec.TryFinalizeCommit(p, Snapshot(), height), log) by {
        hide Spec.TryFinalizeCommit;
        if height == rs.height && rs.step == COMMIT && Sound(log) {
          Steps.TryFinalizeCommitStep(p, Snapshot(), log);
        }
      }
      assert Sound(log) && height == rs.height && rs.step == COMMIT && HoldsCommitted(rs) ==>
        Decides(p, Snapshot(), Spec.TryFinalizeCommit(p, Snapshot(), height),
                Committed(rs.votes, rs.commitRound)) by {
        hide Spec.TryFinalizeCommit, Decides;
        if Sound(log) && height == rs.height && rs.step == COMMIT && HoldsCommitted(rs) {
          TryFinalizeDone(p, Snapshot(), log, Committed(rs.votes, rs.commitRound));
        }
      }
      hide Decides, Keeps, Spec.FinalizeCommit, TwoThirdsMajority;
      if rs.height != height {
        Panic();
        return;
      }
      var maj := TwoThirdsMajority(rs.votes, rs.commitRound, Precommit);
      if maj == None || maj.value.NilBlock? {
        return;
      }
      if !HashesTo(rs.proposalBlock, maj.value) {
        return;
      }
      if !HasHeader(rs.proposalParts, maj.value) || !IsComplete(rs.proposalParts.value) {
        return;
      }
      FinalizeCommit(height, log);
    }

    method FinalizeCommit(height: nat, ghost log: seq<Vote>)
      modifies this
      ensures Snapshot() == Spec.FinalizeCommit(p, old(Snapshot()), height)
      ensures old(height == rs.height && rs.step == COMMIT && HoldsCommitted(rs)) ==>
        Keeps(p, old(Snapshot()), Snapshot(), log)
    {
      hide Inv, Progress, MajoritiesValid;
      assert height == rs.height && rs.step == COMMIT && HoldsCommitted(rs) ==>
        Keeps(p, Snapshot(), Spec.FinalizeCommit(p, Snapshot(), height), log) by {
        hide Spec.FinalizeCommit;
        if height == rs.height && rs.step == COMMIT && HoldsCommitted(rs) && Sound(log) {
          Steps.FinalizeCommitStep(p, Snapshot(), log);
        }
      }
      hide Keeps, Spec.UpdateToState, TwoThirdsMajority;
      if rs.height != height || rs.step != COMMIT {
        return;
      }
      var maj := TwoThirdsMajority(rs.votes, rs.commitRound, Precommit);
      if maj == None {
        Panic();
        return;
      }
      if !HasHeader(rs.proposalParts, maj.value) || !HashesTo(rs.proposalBlock, maj.value) {
        Panic();
        return;
      }
      if !p.valid(chain, rs.proposalBlock.value) {
        Panic();
        return;
      }
      UpdateToState(chain + [IdOf(rs.proposalBlock, rs.proposalParts)]);
      if !panicked {
        ScheduleTimeout(rs.height, 0, NEW_HEIGHT);
      }
    }

    method UpdateToState(newChain: seq<BlockID>)
      modifies this
      ensures Snapshot() == Spec.UpdateToState(p, old(Snapshot()), newChain)
    {
      if rs.commitRound > -1 && 0 < rs.height && rs.height != LastHeight(p, newChain) {
        Panic();
        return;
      }
      if LastHeight(p, chain) > 0 && LastHeight(p, chain) + 1 != rs.height {
        Panic();
        return;
      }
      if LastHeight(p, chain) > 0 && rs.height == p.initialHeight {
        Panic();
        return;
      }
      if LastHeight(p, newChain) <= LastHeight(p, chain) {
        return;
      }
      var lastCommit := rs.lastCommit;
      if rs.commitRound > -1 {
        if TwoThirdsMajority(rs.votes, rs.commitRound, Precommit) == None {
          Panic();
          return;
        }
        lastCommit := Some(GetSet(rs.votes, rs.commitRound, Precommit));
      } else if rs.lastCommit == None {
        Panic();
        return;
      }
      rs := NewRoundState(p, newChain, lastCommit, rs.validators);
      chain := newChain;
    }

    method SetProposal(proposal: Proposal, accepted: bool, ghost log: seq<Vote>)
      modifies this`rs
      ensures Snapshot() == Spec.SetProposal(old(Snapshot()), proposal, accepted)
      ensures Keeps(p, old(Snapshot()), Snapshot(), log)
    {
      hide Inv, Progress, MajoritiesValid;
      assert Keeps(p, Snapshot(), Spec.SetProposal(Snapshot(), proposal, accepted), log) by {
        hide Spec.SetProposal;
        if Sound(log) {
          Steps.SetProposalStep(p, Snapshot(), proposal, accepted, log);
        }
      }
      hide Keeps;
      if rs.proposal.Some? {
        return;
      }
      if proposal.height != rs.height || proposal.round != rs.round {
        return;
      }
      if proposal.polRound < -1 || (proposal.polRound >= 0 && proposal.polRound >= proposal.round) {
        return;
      }
      if !accepted || proposal.blockID.NilBlock? {
        return;
      }
      rs := rs.(proposal := Some(proposal));
      if rs.proposalParts == None {
        rs := rs.(proposalParts := Some(NewPartSet(proposal.blockID.parts)));
      }
    }

    method AddProposalBlockPart(height: nat, part: Part, oversize: bool, ghost log: seq<Vote>) returns (added: bool)
      modifies this`rs
      ensures (Snapshot(), added) == Spec.AddProposalBlockPart(p, old(Snapshot()), height, part, oversize)
      ensures Keeps(p, old(Snapshot()), Snapshot(), log)
    {
      hide Inv, Progress, MajoritiesValid;
      assert Keeps(p, Snapshot(), Spec.AddProposalBlockPart(p, Snapshot(), height, part, oversize).0, log) by {
        hide Spec.AddProposalBlockPart;
        if Sound(log) {
          Steps.AddProposalBlockPartStep(p, Snapshot(), height, part, oversize, log);
        }
      }
      hide Keeps;
      if rs.height != height {
        return false;
      }
      if rs.proposalParts == None {
        return false;
      }
      var ps;
      ps, added := AddPart(rs.proposalParts.value, part).0, AddPart(rs.proposalParts.value, part).1;
      rs := rs.(proposalParts := Some(ps));
      if oversize {
        return;
      }
      if added && IsComplete(ps) {
        var block := p.decode(ps.header);
        if block == None {
          return;
        }
        rs := rs.(proposalBlock := block);
      }
    }

    method HandleCompleteProposal(o: Oracle, height: nat, ghost log: seq<Vote>)
      modifies this
      ensures Snapshot() == Spec.HandleCompleteProposal(p, o, old(Snapshot()), height)
      ensures old(height == rs.height) ==>
        Keeps(p, old(Snapshot()), Snapshot(), log)
    {
      hide Inv, Progress, MajoritiesValid;
      assert height == rs.height ==>
        Keeps(p, Snapshot(), Spec.HandleCompleteProposal(p, o, Snapshot(), height), log) by {
        hide Spec.HandleCompleteProposal;
        if height == rs.height && Sound(log) {
          Steps.HandleCompleteProposalStep(p, o, Snapshot(), log);
        }
      }
      hide Keeps, Spec.EnterPrevote, Spec.EnterPrecommit, Spec.TryFinalizeCommit, IsProposalComplete, TwoThirdsMajority;
      var polka := TwoThirdsMajority(rs.votes, rs.round, Prevote);
      if polka.Some? && polka.value.BlockID? && rs.validRound < rs.round {
        if BlockMatchesBlockID(rs.proposalBlock, rs.proposalParts, polka.value) {
          rs := rs.(validRound := rs.round);
          rs := rs.(validBlock := rs.proposalBlock);
          rs := rs.(validParts := rs.proposalParts);
        }
      }
      if rs.step <= PROPOSE && IsProposalComplete(rs) {
        EnterPrevote(o, height, rs.round, log);
        if polka.Some? {
          EnterPrecommit(o, height, rs.round, log);
        }
      } else if rs.step == COMMIT {
        TryFinalizeCommit(height, log);
      }
    }

    method HandleBlockPart(o: Oracle, height: nat, part: Part, oversize: bool, ghost log: seq<Vote>)
      modifies this
      ensures Snapshot() == Spec.HandleBlockPart(p, o, old(Snapshot()), height, part, oversize)
      ensures Keeps(p, old(Snapshot()), Snapshot(), log)
    {
      hide Inv, Progress, MajoritiesValid;
      assert Keeps(p, Snapshot(), Spec.HandleBlockPart(p, o, Snapshot(), height, part, oversize), log) by {
        hide Spec.HandleBlockPart;
        if Sound(log) {
          Steps.HandleBlockPartStep(p, o, Snapshot(), height, part, oversize, log);
        }
      }
      hide Keeps, Spec.AddProposalBlockPart, Spec.HandleCompleteProposal;
      var added := AddProposalBlockPart(height, part, oversize, log);
      if added && rs.proposalParts.Some? && IsComplete(rs.proposalParts.value) {
        HandleCompleteProposal(o, height, log);
      }
    }

    method AddVote(o: Oracle, vote: Vote, peer: Peer, ghost log: seq<Vote>)
      modifies this
      ensures Snapshot() == Spec.AddVote(p, o, old(Snapshot()), vote, peer)
      ensures vote in log ==> Keeps(p, old(Snapshot()), Snapshot(), log)
    {
      hide Inv, Progress, MajoritiesValid;
      assert vote in log ==> Keeps(p, Snapshot(), Spec.AddVote(p, o, Snapshot(), vote, peer), log) by {
        hide Spec.AddVote;
        if vote in log && Sound(log) {
          Steps.AddVoteStep(p, o, Snapshot(), vote, peer, log);
        }
      }
      hide Keeps, AddToHeight, Spec.AfterPrevote, Spec.AfterPrecommit, Spec.AddLastCommitVote;
      if vote.height + 1 == rs.height && vote.kind == Precommit {
        AddLastCommitVote(o, vote, log);
        return;
      }
      if vote.height != rs.height {
        return;
      }
      var (votes, added) := AddToHeight(rs.validators, rs.votes, vote, peer);
      rs := rs.(votes := votes);
      if !added {
        return;
      }
      match vote.kind
      case Prevote => AfterPrevote(o, vote, log);
      case Precommit => AfterPrecommit(o, vote, log);
    }

    method AddLastCommitVote(o: Oracle, vote: Vote, ghost log: seq<Vote>)
      modifies this
      ensures Snapshot() == Spec.AddLastCommitVote(p, o, old(Snapshot()), vote)
      ensures Keeps(p, old(Snapshot()), Snapshot(), log)
    {
      hide Inv, Progress, MajoritiesValid;
      assert Keeps(p, Snapshot(), Spec.AddLastCommitVote(p, o, Snapshot(), vote), log) by {
        hide Spec.AddLastCommitVote;
        if Sound(log) {
          Steps.AddLastCommitVoteStep(p, o, Snapshot(), vote, log);
        }
      }
      hide Keeps, AddToSet, HasAll, Spec.EnterNewRound;
      if rs.step != NEW_HEIGHT {
        return;
      }
      if rs.lastCommit == None || rs.lastCommit.value.round != vote.round {
        return;
      }
      var (vs, added) := AddToSet(rs.lastValidators, rs.lastCommit.value, vote.validator, vote.blockID);
      rs := rs.(lastCommit := Some(vs));
      if added && o.skipTimeoutCommit && HasAll(rs.lastValidators, vs) {
        EnterNewRound(o, rs.height, 0, log);
      }
    }

    method NotePolka(round: nat, b: BlockID, ghost log: seq<Vote>)
      modifies this`rs
      ensures rs == UpdateValidBlock(UnlockOnPolka(old(rs), round, b), round, b)
      ensures old(Polka(rs.votes, round, b)) ==>
        Keeps(p, old(Snapshot()), Snapshot(), log)
    {
      hide Inv, Progress, MajoritiesValid;
      assert Polka(rs.votes, round, b) ==>
        Keeps(p, Snapshot(), Snapshot().(rs := UpdateValidBlock(UnlockOnPolka(rs, round, b), round, b)), log) by {
        hide UnlockOnPolka, UpdateValidBlock;
        if Polka(rs.votes, round, b) && Sound(log) {
          Steps.NotePolka(p, Snapshot(), round, b, log);
        }
      }
      hide Keeps;
      if rs.lockedBlock.Some? && rs.lockedRound < round && round <= rs.round &&
         !BlockMatchesBlockID(rs.lockedBlock, rs.lockedParts, b) {
        Unlock();
      }
      if b.BlockID? && rs.validRound < round && round == rs.round {
        var partsMatch := HasHeader(rs.proposalParts, b);
        if HashesTo(rs.proposalBlock, b) && partsMatch {
          rs := rs.(validRound := round);
          rs := rs.(validBlock := rs.proposalBlock);
          rs := rs.(validParts := rs.proposalParts);
        } else if rs.proposalBlock.Some? {
          rs := rs.(proposalBlock := None);
        }
        if !partsMatch {
          rs := rs.(proposalParts := Some(NewPartSet(b.parts)));
        }
      }
    }

    method AfterPrevote(o: Oracle, vote: Vote, ghost log: seq<Vote>)
      modifies this
      ensures Snapshot() == Spec.AfterPrevote(p, o, old(Snapshot()), vote)
      ensures Keeps(p, old(Snapshot()), Snapshot(), log)
      ensures old(Sound(log)) ==>
        PrevoteCounted(p, o, old(Snapshot()), Snapshot(), vote.round)
    {
      hide Inv, Progress, MajoritiesValid;
      assert Keeps(p, Snapshot(), Spec.AfterPrevote(p, o, Snapshot(), vote), log) by {
        hide Spec.AfterPrevote;
        if Sound(log) {
          Steps.AfterPrevoteStep(p, o, Snapshot(), vote, log);
        }
      }
      assert Sound(log) ==>
        PrevoteCounted(p, o, Snapshot(), Spec.AfterPrevote(p, o, Snapshot(), vote), vote.round) by {
        hide Spec.AfterPrevote, PrevoteCounted;
        if Sound(log) {
          PrevoteReacts(p, o, Snapshot(), vote, log);
        }
      }
      hide PrevoteCounted, Keeps, Spec.ReactToPrevote, UnlockOnPolka, UpdateValidBlock, TwoThirdsMajority;
      var polka := TwoThirdsMajority(rs.votes, vote.round, Prevote);
      if polka.Some? {
        NotePolka(vote.round, polka.value, log);
      }
      ReactToPrevote(o, vote.round, log);
    }

    method ReactToPrevote(o: Oracle, round: nat, ghost log: seq<Vote>)
      modifies this
      ensures Snapshot() == Spec.ReactToPrevote(p, o, old(Snapshot()), round)
    {
      hide Inv, Progress, MajoritiesValid, Keeps, PrevoteDuty, PrecommitDuty, Sound;
      hide Spec.EnterNewRound, Spec.EnterPrecommit, Spec.EnterPrevoteWait, Spec.EnterPrevote;
      hide HasTwoThirdsAny, IsProposalComplete, TwoThirdsMajority;
      if rs.round < round && HasTwoThirdsAny(rs.validators, rs.votes, round, Prevote) {
        EnterNewRound(o, rs.height, round, log);
      } else if rs.round == round && PREVOTE <= rs.step {
        var polka := TwoThirdsMajority(rs.votes, round, Prevote);
        if polka.Some? && (IsProposalComplete(rs) || polka.value.NilBlock?) {
          EnterPrecommit(o, rs.height, round, log);
        } else if HasTwoThirdsAny(rs.validators, rs.votes, round, Prevote) {
          EnterPrevoteWait(rs.height, round, log);
        }
      } else if rs.proposal.Some? && 0 <= rs.proposal.value.polRound && rs.proposal.value.polRound == round {
        if IsProposalComplete(rs) {
          EnterPrevote(o, rs.height, rs.round, log);
        }
      }
    }

    method AfterPrecommit(o: Oracle, vote: Vote, ghost log: seq<Vote>)
      modifies this
      ensures Snapshot() == Spec.AfterPrecommit(p, o, old(Snapshot()), vote)
      ensures Keeps(p, old(Snapshot()), Snapshot(), log)
      ensures old(Sound(log)) ==>
        PrecommitCounted(p, o, old(Snapshot()), Snapshot(), vote.round)
    {
      hide Inv, Progress, MajoritiesValid;
      assert Keeps(p, Snapshot(), Spec.AfterPrecommit(p, o, Snapshot(), vote), log) by {
        hide Spec.AfterPrecommit;
        if Sound(log) {
          Steps.AfterPrecommitStep(p, o, Snapshot(), vote, log);
        }
      }
      assert Sound(log) ==>
        PrecommitCounted(p, o, Snapshot(), Spec.AfterPrecommit(p, o, Snapshot(), vote), vote.round) by {
        hide Spec.AfterPrecommit, PrecommitCounted;
        if Sound(log) {
          PrecommitReacts(p, o, Snapshot(), vote, log);
        }
      }
      hide PrecommitCounted, PrecommitDuty, CommitDuty, Sound, Keeps, HasAll, HasTwoThirdsAny;
      hide Spec.EnterNewRound, Spec.EnterPrecommit, Spec.EnterPrecommitWait, Spec.EnterCommit, GetSet;
      var height := rs.height;
      var precommits := GetSet(rs.votes, vote.round, Precommit);
      var vals := rs.validators;
      if precommits.maj23.Some? {
        EnterNewRound(o, height, vote.round, log);
        EnterPrecommit(o, height, vote.round, log);
        if precommits.maj23.value.BlockID? {
          EnterCommit(height, vote.round, log);
          if o.skipTimeoutCommit && HasAll(vals, precommits) {
            EnterNewRound(o, rs.height, 0, log);
          }
        } else {
          EnterPrecommitWait(height, vote.round, log);
        }
      } else if rs.round <= vote.round && HasTwoThirdsAny(rs.validators, rs.votes, vote.round, Precommit) {
        EnterNewRound(o, height, vote.round, log);
        EnterPrecommitWait(height, vote.round, log);
      }
    }

    method HandleTimeout(o: Oracle, ti: TimeoutInfo, ghost log: seq<Vote>)
      modifies this
      ensures Snapshot() == Spec.HandleTimeout(p, o, old(Snapshot()), ti)
      ensures old(ti in timeouts) ==>
        Keeps(p, old(Snapshot()), Snapshot(), log)
    {
      hide Inv, Progress, MajoritiesValid;
      assert ti in timeouts ==> Keeps(p, Snapshot(), Spec.HandleTimeout(p, o, Snapshot(), ti), log) by {
        hide Spec.HandleTimeout;
        if ti in timeouts && Sound(log) {
          Steps.HandleTimeoutStep(p, o, Snapshot(), ti, log);
        }
      }
      hide Keeps, Spec.EnterNewRound, Spec.EnterPropose, Spec.EnterPrevote, Spec.EnterPrecommit;
      if ti.height != rs.height || ti.round < rs.round || (ti.round == rs.round && ti.step < rs.step) {
        return;
      }
      if ti.step == NEW_HEIGHT {
        EnterNewRound(o, ti.height, 0, log);
      } else if ti.step == NEW_ROUND {
        EnterPropose(o, ti.height, ti.round, log);
      } else if ti.step == PROPOSE {
        EnterPrevote(o, ti.height, ti.round, log);
      } else if ti.step == PREVOTE_WAIT {
        EnterPrecommit(o, ti.height, ti.round, log);
      } else if ti.step == PRECOMMIT_WAIT {
        EnterPrecommit(o, ti.height, ti.round, log);
        EnterNewRound(o, ti.height, ti.round + 1, log);
      } else {
        Panic();
      }
    }

    method HandleTxsAvailable(o: Oracle, ghost log: seq<Vote>)
      modifies this
      ensures Snapshot() == Spec.HandleTxsAvailable(p, o, old(Snapshot()))
      ensures Keeps(p, old(Snapshot()), Snapshot(), log)
    {
      hide Inv, Progress, MajoritiesValid;
      assert Keeps(p, Snapshot(), Spec.HandleTxsAvailable(p, o, Snapshot()), log) by {
        hide Spec.HandleTxsAvailable;
        if Sound(log) {
          Steps.HandleTxsAvailableStep(p, o, Snapshot(), log);
        }
      }
      hide Keeps, Spec.EnterPropose;
      if rs.round != 0 {
        return;
      }
      if rs.step == NEW_HEIGHT {
        if o.needProofBlock(rs.height) {
          return;
        }
        ScheduleTimeout(rs.height, 0, NEW_ROUND);
      } else if rs.step == NEW_ROUND {
        EnterPropose(o, rs.height, 0, log);
      }
    }

    /** One turn of the receive routine. */
    method Receive(o: Oracle, e: Event, ghost log: seq<Vote>)
      modifies this
      ensures Snapshot() == Spec.Handle(p, o, old(Snapshot()), e)
      ensures old(Steps.Deliverable(Snapshot(), e, log)) ==>
        Keeps(p, old(Snapshot()), Snapshot(), log)
    {
      hide Inv, Progress, MajoritiesValid;
      assert Steps.Deliverable(Snapshot(), e, log) ==>
        Keeps(p, Snapshot(), Spec.Handle(p, o, Snapshot(), e), log) by {
        hide Spec.Handle;
        if Steps.Deliverable(Snapshot(), e, log) && Sound(log) {
          Steps.HandleStep(p, o, Snapshot(), e, log);
        }
      }
      hide Keeps, Spec.HandleTimeout, Spec.HandleTxsAvailable, Spec.SetProposal, Spec.HandleBlockPart, Spec.AddVote;
      match e
      case Timeout(ti) => HandleTimeout(o, ti, log);
      case TxsAvailable => HandleTxsAvailable(o, log);
      case ProposalMessage(proposal, accepted) => SetProposal(proposal, accepted, log);
      case BlockPartMessage(height, part, oversize) => HandleBlockPart(o, height, part, oversize, log);
      case VoteMessage(vote, peer) => AddVote(o, vote, peer, log);
      case PeerMaj23(round, kind, from, b) =>
        rs := rs.(votes := SetPeerMaj23InHeight(rs.votes, round, kind, from, b));
    }
  }

  /** Creates the vote sets of the rounds that are newly tracked. */
  method TrackRounds(hvs: HeightVoteSet, round: int) returns (r: HeightVoteSet)
    ensures r == SetRound(hvs, round)
  {
    var sets := hvs.sets;
    var q := hvs.round - 1;
    while q <= round
      invariant hvs.round - 1 <= q
      invariant q <= round + 1 || q == hvs.round - 1
      invariant forall k :: k in sets <==> k in hvs.sets || hvs.round - 1 <= k < q
      invariant forall k :: k in sets ==> sets[k] == if k in hvs.sets then hvs.sets[k] else EmptyRound(k)
    {
      if q !in sets {
        sets := sets[q := EmptyRound(q)];
      }
      q := q + 1;
    }
    r := hvs.(round := round, sets := sets);
    var tracked := SetRound(hvs, round).sets;
    assert forall k :: k in tracked <==> k in hvs.sets || hvs.round - 1 <= k <= round;
    assert forall k :: k in tracked ==> tracked[k] == if k in hvs.sets then hvs.sets[k] else EmptyRound(k);
    assert sets.Keys == tracked.Keys;
    forall k | k in sets ensures sets[k] == tracked[k] {
    }
  }

  /** Scans the tracked rounds downwards for the latest one with a +2/3 majority of prevotes. */
  method FindPolRound(hvs: HeightVoteSet) returns (r: int)
    ensures r == PolRound(hvs, hvs.round)
  {
    r := hvs.round;
    while r >= 0
      invariant -1 <= r || r == hvs.round
      invariant PolRound(hvs, hvs.round) == PolRound(hvs, r)
    {
      if TwoThirdsMajority(hvs, r, Prevote).Some? {
        return;
      }
      r := r - 1;
    }
    r := -1;
  }
}
