/** Every handler keeps the invariant and makes only justified progress. */
module ConsensusSteps {
  import opened Power
  import opened VoteSets
  import opened Consensus
  import opened ConsensusInvariant

  //---------------------------------------------------------------------------
  // Moves within a height

  ghost predicate SameHeight(n: Node, m: Node) {
    && m.id == n.id
    && m.chain == n.chain
    && m.rs.height == n.rs.height
    && m.rs.validators == n.rs.validators
    && VotesGrow(n.rs.votes, m.rs.votes)
    && n.rs.round <= m.rs.round
    && (n.rs.round == m.rs.round ==> n.rs.step <= m.rs.step || PRECOMMIT <= m.rs.step)
    && LockKept(n.rs, m.rs)
  }

  /** The parts of the invariant that only the fields of the round state decide. */
  ghost predicate LocalInv(p: Params, n: Node, log: seq<Vote>) {
    && BasicInv(p, n)
    && Backed(n.rs.height, n.rs.votes, log)
    && BlocksInv(p, n.rs)
    && LockInv(p, n.chain, n.rs)
    && ValidBlockInv(n.rs)
    && CommitInv(n.rs.votes, n.rs.step, n.rs.commitRound)
    && TimeoutsInv(n.timeouts, n.rs.height, n.rs.round)
  }

  lemma HeldOrReplacedMove(n: Node, m: Node, v: Vote)
    requires SameHeight(n, m) && HeldOrReplaced(n.rs, v)
    ensures HeldOrReplaced(m.rs, v)
  {
    if v.kind == Precommit && v.blockID.BlockID? && v.height == n.rs.height {
      if !(LockedID(n.rs) == v.blockID && v.round <= n.rs.lockedRound) {
        var r :| v.round < r <= n.rs.round && PolkaAgainst(n.rs.votes, r, v.blockID);
        assert PolkaAgainst(m.rs.votes, r, v.blockID);
      } else if !(LockedID(m.rs) == LockedID(n.rs) && n.rs.lockedRound <= m.rs.lockedRound) {
        var r :| n.rs.lockedRound < r <= m.rs.round && PolkaAgainst(m.rs.votes, r, v.blockID);
      }
    }
  }

  lemma LockHistoryMove(n: Node, m: Node)
    requires SameHeight(n, m) && LockHistory(n.sent, n.rs)
    ensures LockHistory(n.sent, m.rs)
  {
    hide HeldOrReplaced, SameHeight;
    forall i | 0 <= i < |n.sent| ensures HeldOrReplaced(m.rs, n.sent[i]) {
      HeldOrReplacedMove(n, m, n.sent[i]);
    }
  }

  lemma SentInvMove(p: Params, n: Node, m: Node)
    requires SameHeight(n, m) && SentInv(p, n.id, n.sent, n.rs.height, n.rs.round, n.rs.step)
    ensures SentInv(p, n.id, n.sent, m.rs.height, m.rs.round, m.rs.step)
  {
    hide InOrder, LockKept, VotesGrow;
  }

  /** A move that signs nothing. */
  lemma QuietMove(p: Params, n: Node, m: Node, log: seq<Vote>)
    requires Inv(p, n, log) && SameHeight(n, m) && LocalInv(p, m, log) && m.sent == n.sent
    ensures Inv(p, m, log) && Progress(p, n, m, log)
  {
    hide SentInv, SentGrounded, Decided, BlocksInv, LockInv, ValidBlockInv, CommitInv, TimeoutsInv, Backed, LockKept;
    hide HeldOrReplaced, VotesGrow, Justified, LockHistory, BasicInv;
    LockHistoryMove(n, m);
    SentInvMove(p, n, m);
  }

  /** A vote signed for the current round at the step that it belongs to. */
  ghost predicate Signs(p: Params, n: Node, m: Node, log: seq<Vote>, v: Vote) {
    && m.sent == n.sent + [v]
    && v.validator == n.id && v.height == m.rs.height && v.round == m.rs.round
    && (n.rs.round == m.rs.round ==> n.rs.step < StepAfter(v.kind))
    && StepAfter(v.kind) <= m.rs.step
    && VoteGround(p, n.chain, log, v)
    && HeldOrReplaced(m.rs, v)
    && (forall i :: 0 <= i < |n.sent| ==> Justified(p, n.chain, log, n.sent[i], v))
  }

  lemma SentInvSigns(p: Params, n: Node, m: Node, log: seq<Vote>, v: Vote)
    requires SameHeight(n, m) && SentInv(p, n.id, n.sent, n.rs.height, n.rs.round, n.rs.step)
    requires Signs(p, n, m, log, v) && p.initialHeight <= n.rs.height
    ensures SentInv(p, m.id, m.sent, m.rs.height, m.rs.round, m.rs.step)
  {
    hide VoteGround, HeldOrReplaced, Justified, LockKept, VotesGrow;
    SentInvMove(p, n, m);
    forall i | 0 <= i < |n.sent| ensures InOrder(n.sent[i], v) {
      assert SentBefore(p, n.id, n.sent[i], n.rs.height, n.rs.round, n.rs.step);
    }
  }

  /** A move that signs one vote. */
  lemma SigningMove(p: Params, n: Node, m: Node, log: seq<Vote>, v: Vote)
    requires Inv(p, n, log) && SameHeight(n, m) && LocalInv(p, m, log) && Signs(p, n, m, log, v)
    ensures Inv(p, m, log) && Progress(p, n, m, log)
  {
    hide SentInv, Decided, BlocksInv, LockInv, ValidBlockInv, CommitInv, TimeoutsInv, Backed, LockKept;
    hide HeldOrReplaced, VotesGrow, Justified, VoteGround;
    LockHistoryMove(n, m);
    SentInvSigns(p, n, m, log, v);
    assert LockHistory(m.sent, m.rs);
    assert SentGrounded(p, m.chain, log, m.sent);
    assert NewVotesJustified(p, m.chain, log, n.sent, m.sent);
  }

  //---------------------------------------------------------------------------
  // Prevoting

  /** A prevote of the locked block, or of anything when nothing is locked, respects earlier precommits. */
  lemma PrevoteJustified(p: Params, n: Node, log: seq<Vote>, u: Vote, v: Vote)
    requires BasicInv(p, n) && Backed(n.rs.height, n.rs.votes, log) && HeldOrReplaced(n.rs, u)
    requires v.kind == Prevote && v.height == n.rs.height && v.round == n.rs.round
    requires LockedID(n.rs).BlockID? ==> v.blockID == LockedID(n.rs)
    ensures Justified(p, n.chain, log, u, v)
  {
    hide ValidHeightVotes, LastCommitInv, Backed, MajorityAfter;
    if u.kind == Precommit && u.height == v.height && u.blockID.BlockID? && u.blockID != v.blockID {
      var r :| u.round < r <= n.rs.round && PolkaAgainst(n.rs.votes, r, u.blockID);
      var c := TwoThirdsMajority(n.rs.votes, r, Prevote).value;
      MajorityIsQuorum(p, n, log, r, Prevote, c);
      assert Below(p, n.chain, v.height) == n.chain;
      assert u.round < r <= v.round && c != u.blockID &&
        MajorityAfter(p, Below(p, n.chain, v.height), log, r, Prevote, c);
    }
  }

  lemma SignPrevoteStep(p: Params, n: Node, m: Node, log: seq<Vote>, v: Vote)
    requires Inv(p, n, log) && n.rs.step < PREVOTE
    requires v.kind == Prevote && v.validator == n.id && v.height == n.rs.height && v.round == n.rs.round
    requires LockedID(n.rs).BlockID? ==> v.blockID == LockedID(n.rs)
    requires v.blockID.BlockID? ==> ValidID(p, n.chain, v.blockID)
    requires SameHeight(n, m) && LocalInv(p, m, log)
    requires m.rs.height == n.rs.height && m.rs.round == n.rs.round && m.rs.step == PREVOTE && m.sent == n.sent + [v]
    ensures Inv(p, m, log) && Progress(p, n, m, log)
  {
    hide LocalInv, SameHeight, ValidID, BlocksInv, LockInv, ValidBlockInv, CommitInv, SentInv, Backed, Decided;
    hide SentGrounded, TimeoutsInv;
    hide MajorityAfter, ValidHeightVotes;
    forall i | 0 <= i < |n.sent| ensures Justified(p, n.chain, log, n.sent[i], v) {
      hide Justified;
      PrevoteJustified(p, n, log, n.sent[i], v);
    }
    assert Below(p, n.chain, v.height) == n.chain;
    hide Justified;
    SigningMove(p, n, m, log, v);
  }

  lemma EnterPrevoteStep(p: Params, o: Oracle, n: Node, height: nat, round: nat, log: seq<Vote>)
    requires Inv(p, n, log) && (height == n.rs.height ==> round <= n.rs.round)
    ensures var m := EnterPrevote(p, o, n, height, round);
      Inv(p, m, log) && Progress(p, n, m, log)
  {
    hide SentInv, LockHistory, SentGrounded, Decided, Backed, TimeoutsInv, ValidHeightVotes, LastCommitInv, Polka;
    var m := EnterPrevote(p, o, n, height, round);
    if Stale(n.rs, height, round, PREVOTE) {
      ProgressReflexive(p, n, log);
    } else {
      assert SameHeight(n, m) && LocalInv(p, m, log);
      if m.sent == n.sent {
        QuietMove(p, n, m, log);
      } else {
        SignPrevoteStep(p, n, m, log, m.sent[|n.sent|]);
      }
    }
  }

  //---------------------------------------------------------------------------
  // Precommitting

  /** What entering the precommit step signs: nothing, nil, or the block it has just locked. */
  ghost predicate SignsPrecommit(n: Node, m: Node) {
    || m.sent == n.sent
    || (exists b :: m.sent == n.sent + [Vote(n.rs.height, n.rs.round, Precommit, b, n.id)] &&
          (b.BlockID? ==> LockedID(m.rs) == b && m.rs.lockedRound == m.rs.round))
  }

  lemma PrecommitMove(p: Params, n: Node, m: Node, log: seq<Vote>)
    requires Inv(p, n, log) && SameHeight(n, m) && LocalInv(p, m, log)
    requires n.rs.step < PRECOMMIT && m.rs.step == PRECOMMIT && m.rs.round == n.rs.round && SignsPrecommit(n, m)
    ensures Inv(p, m, log) && Progress(p, n, m, log)
  {
    hide SentInv, LockHistory, SentGrounded, Decided, TimeoutsInv, ValidHeightVotes, LastCommitInv, CommitInv;
    hide ValidBlockInv;
    hide MajorityAfter, Backed, LockKept, VotesGrow;
    if m.sent == n.sent {
      QuietMove(p, n, m, log);
    } else {
      var v := m.sent[|n.sent|];
      assert Below(p, n.chain, v.height) == n.chain;
      if v.blockID.BlockID? {
        MajorityIsQuorum(p, m, log, m.rs.round, Prevote, v.blockID);
      }
      SigningMove(p, n, m, log, v);
    }
  }

  lemma LockKeptSame(rs: RoundState, rs': RoundState)
    requires LockedID(rs') == LockedID(rs) && rs.lockedRound <= rs'.lockedRound
    ensures LockKept(rs, rs')
  {
  }

  /** Any polka of the current round is above the lock, so it may replace the lock. */
  lemma PolkaAboveLock(p: Params, n: Node, m: Node, b: BlockID)
    requires LockInv(p, n.chain, n.rs) && n.rs.step < PRECOMMIT
    requires Polka(n.rs.votes, n.rs.round, b) && LockedID(n.rs) != b
    requires m.rs.votes == n.rs.votes && m.rs.round == n.rs.round
    ensures LockKept(n.rs, m.rs)
  {
    assert PolkaAgainst(m.rs.votes, n.rs.round, LockedID(n.rs));
  }

  /** Precommitting touches only the lock and the proposal block. */
  ghost predicate OnlyLockChanged(rs: RoundState, rs': RoundState) {
    rs' == rs.(lockedRound := rs'.lockedRound, lockedBlock := rs'.lockedBlock, lockedParts := rs'.lockedParts,
               proposalBlock := rs'.proposalBlock, proposalParts := rs'.proposalParts)
  }

  lemma PrecommitChoiceFields(p: Params, n: Node)
    ensures var choice := PrecommitChoice(p, n, n.rs.round);
      choice.Some? ==>
        && OnlyLockChanged(n.rs, choice.value.0)
        && (choice.value.1.BlockID? ==>
              LockedID(choice.value.0) == choice.value.1 && choice.value.0.lockedRound == n.rs.round)
  {
  }

  lemma CoherentEmpty(p: Params)
    ensures Coherent(p, None, None)
    ensures forall h :: Coherent(p, None, Some(NewPartSet(h)))
  {
  }

  lemma PrecommitChoiceBlocks(p: Params, n: Node)
    requires BlocksInv(p, n.rs)
    ensures var choice := PrecommitChoice(p, n, n.rs.round);
      choice.Some? ==> BlocksInv(p, choice.value.0)
  {
    hide Coherent, TwoThirdsMajority, PolRound, BlockMatchesBlockID, HasHeader, NewPartSet;
    CoherentEmpty(p);
  }

  /** A polka in the current round never panics the node, and leaves it locked rightly. */
  lemma PrecommitChoiceLock(p: Params, n: Node, log: seq<Vote>)
    requires Inv(p, n, log) && MajoritiesValid(p, n.chain, log) && n.rs.step < PRECOMMIT
    ensures var choice := PrecommitChoice(p, n, n.rs.round);
      && choice.Some?
      && LockInv(p, n.chain, choice.value.0.(step := PRECOMMIT))
      && LockKept(n.rs, choice.value.0.(step := PRECOMMIT))
  {
    hide SentInv, LockHistory, SentGrounded, Decided, TimeoutsInv, ValidHeightVotes, LastCommitInv, Backed;
    hide LockKept, MajorityAfter, TwoThirdsMajority, ValidBlockInv, CommitInv;
    var polka := TwoThirdsMajority(n.rs.votes, n.rs.round, Prevote);
    if polka.Some? {
      assert PolRound(n.rs.votes, n.rs.votes.round) >= n.rs.round;
      MajorityIsQuorum(p, n, log, n.rs.round, Prevote, polka.value);
    }
    var rs := PrecommitChoice(p, n, n.rs.round).value.0.(step := PRECOMMIT);
    if polka == None || LockedID(n.rs) == polka.value {
      LockKeptSame(n.rs, rs);
    } else {
      PolkaAboveLock(p, n, n.(rs := rs), polka.value);
    }
  }

  lemma CommitInvStep(votes: HeightVoteSet, step: nat, step': nat, commitRound: int)
    requires CommitInv(votes, step, commitRound) && step' != COMMIT
    ensures CommitInv(votes, step', commitRound)
  {
  }

  lemma EnterPrecommitLocal(p: Params, o: Oracle, n: Node, log: seq<Vote>)
    requires Inv(p, n, log) && MajoritiesValid(p, n.chain, log) && n.rs.step < PRECOMMIT
    ensures var m := EnterPrecommit(p, o, n, n.rs.height, n.rs.round);
      && SameHeight(n, m) && LocalInv(p, m, log) && SignsPrecommit(n, m)
      && m.rs.step == PRECOMMIT && m.rs.round == n.rs.round
  {
    hide SentInv, LockHistory, SentGrounded, Decided, TimeoutsInv, ValidHeightVotes, LastCommitInv, Backed;
    hide LockKept, LockInv, HeldFor, CommitInv, PrecommitChoice, MajoritiesValid, Coherent, VotesGrow;
    PrecommitChoiceFields(p, n);
    PrecommitChoiceBlocks(p, n);
    PrecommitChoiceLock(p, n, log);
    CommitInvStep(n.rs.votes, n.rs.step, PRECOMMIT, n.rs.commitRound);
    VotesGrowReflexive(n.rs.votes);
  }

  lemma VotesGrowReflexive(votes: HeightVoteSet)
    ensures VotesGrow(votes, votes)
  {
  }

  lemma EnterPrecommitStep(p: Params, o: Oracle, n: Node, height: nat, round: nat, log: seq<Vote>)
    requires Inv(p, n, log) && (height == n.rs.height ==> round <= n.rs.round)
    requires MajoritiesValid(p, n.chain, log)
    ensures var m := EnterPrecommit(p, o, n, height, round);
      Inv(p, m, log) && Progress(p, n, m, log)
  {
    hide Inv, Progress, LocalInv, SameHeight, SignsPrecommit, MajoritiesValid, PrecommitChoice;
    if Stale(n.rs, height, round, PRECOMMIT) {
      ProgressReflexive(p, n, log);
    } else {
      EnterPrecommitLocal(p, o, n, log);
      PrecommitMove(p, n, EnterPrecommit(p, o, n, height, round), log);
    }
  }

  //---------------------------------------------------------------------------
  // Rounds and waiting

  lemma HeldForGrow(votes: HeightVoteSet, votes': HeightVoteSet, round: nat, round': nat, heldRound: int,
                    block: Option<Block>, parts: Option<PartSet>)
    requires VotesGrow(votes, votes') && round <= round' && HeldFor(votes, round, heldRound, block, parts)
    ensures HeldFor(votes', round', heldRound, block, parts)
  {
  }

  lemma CommitInvGrow(votes: HeightVoteSet, votes': HeightVoteSet, step: nat, commitRound: int)
    requires VotesGrow(votes, votes') && CommitInv(votes, step, commitRound)
    ensures CommitInv(votes', step, commitRound)
  {
  }

  lemma TimeoutsLater(timeouts: set<TimeoutInfo>, height: nat, round: nat, height': nat, round': nat)
    requires TimeoutsInv(timeouts, height, round) && NotAfter(height, round, height', round')
    ensures TimeoutsInv(timeouts, height', round')
  {
  }

  lemma TimeoutsAdd(timeouts: set<TimeoutInfo>, height: nat, round: nat, ti: TimeoutInfo)
    requires TimeoutsInv(timeouts, height, round) && NotAfter(ti.height, ti.round, height, round)
    requires ti.step in {NEW_HEIGHT, NEW_ROUND, PROPOSE, PREVOTE_WAIT, PRECOMMIT_WAIT}
    ensures TimeoutsInv(timeouts + {ti}, height, round)
  {
  }

  lemma SetRoundGrow(p: Params, n: Node, log: seq<Vote>, round: int)
    requires ValidHeightVotes(n.rs.validators, n.rs.votes) && Backed(n.rs.height, n.rs.votes, log)
    ensures var votes := SetRound(n.rs.votes, round);
      && VotesGrow(n.rs.votes, votes)
      && ValidHeightVotes(n.rs.validators, votes)
      && Backed(n.rs.height, votes, log)
      && votes.round == round
  {
    hide ValidVoteSet, GetSet, Voters;
    SetRoundKeepsVotes(n.rs.validators, n.rs.votes, round);
  }

  lemma StartRoundStep(p: Params, n: Node, round: nat, log: seq<Vote>)
    requires Inv(p, n, log) && (n.rs.round < round || (n.rs.round == round && n.rs.step == NEW_HEIGHT))
    ensures var m := StartRound(n, round);
      Inv(p, m, log) && Progress(p, n, m, log) && m.rs.height == n.rs.height && m.rs.round == round &&
        m.rs.step == NEW_ROUND
  {
    hide SentInv, LockHistory, SentGrounded, Decided, ValidHeightVotes, LastCommitInv, Backed, VotesGrow, LockKept;
    hide HeldFor, CommitInv, SetRound, Coherent, TimeoutsInv;
    var m := StartRound(n, round);
    SetRoundGrow(p, n, log, round + 1);
    assert Coherent(p, None, None) by { CoherentEmpty(p); }
    HeldForGrow(n.rs.votes, m.rs.votes, n.rs.round, round, n.rs.lockedRound, n.rs.lockedBlock, n.rs.lockedParts);
    HeldForGrow(n.rs.votes, m.rs.votes, n.rs.round, round, n.rs.validRound, n.rs.validBlock, n.rs.validParts);
    CommitInvStep(n.rs.votes, n.rs.step, NEW_ROUND, n.rs.commitRound);
    CommitInvGrow(n.rs.votes, m.rs.votes, NEW_ROUND, n.rs.commitRound);
    TimeoutsLater(n.timeouts, n.rs.height, n.rs.round, n.rs.height, round);
    LockKeptSame(n.rs, m.rs);
    LockedRoundBounded(n.rs);
    QuietMove(p, n, m, log);
  }

  lemma LockedRoundBounded(rs: RoundState)
    ensures HeldFor(rs.votes, rs.round, rs.lockedRound, rs.lockedBlock, rs.lockedParts) ==> rs.lockedRound <= rs.round
  {
  }

  /** Only the step and the timeouts change. */
  lemma StepAndTimeout(p: Params, n: Node, m: Node, log: seq<Vote>, ti: TimeoutInfo)
    requires Inv(p, n, log)
    requires ti.height == n.rs.height && ti.round == n.rs.round
    requires ti.step in {NEW_ROUND, PROPOSE, PREVOTE_WAIT, PRECOMMIT_WAIT}
    requires m == n.(timeouts := n.timeouts + {ti},
                     rs := n.rs.(step := m.rs.step, triggeredTimeoutPrecommit := m.rs.triggeredTimeoutPrecommit))
    requires NEW_ROUND <= m.rs.step < COMMIT && (n.rs.step <= m.rs.step || PRECOMMIT <= m.rs.step)
    ensures Inv(p, m, log) && Progress(p, n, m, log)
  {
    hide SentInv, LockHistory, SentGrounded, Decided, ValidHeightVotes, LastCommitInv, Backed, VotesGrow, LockKept;
    hide HeldFor, CommitInv, Coherent, TimeoutsInv;
    VotesGrowReflexive(n.rs.votes);
    CommitInvStep(n.rs.votes, n.rs.step, m.rs.step, n.rs.commitRound);
    TimeoutsAdd(n.timeouts, n.rs.height, n.rs.round, ti);
    LockKeptSame(n.rs, m.rs);
    QuietMove(p, n, m, log);
  }

  lemma EnterProposeStep(p: Params, o: Oracle, n: Node, height: nat, round: nat, log: seq<Vote>)
    requires Inv(p, n, log) && (height == n.rs.height ==> round <= n.rs.round)
    ensures var m := EnterPropose(p, o, n, height, round);
      Inv(p, m, log) && Progress(p, n, m, log)
  {
    hide Inv, Progress, EnterPrevote;
    ProgressReflexive(p, n, log);
    if !Stale(n.rs, height, round, PROPOSE) {
      var n1 := UpdateRoundStep(ScheduleTimeout(n, height, round, PROPOSE), round, PROPOSE);
      StepAndTimeout(p, n, n1, log, TimeoutInfo(height, round, PROPOSE));
      var m := EnterPrevote(p, o, n1, height, n1.rs.round);
      EnterPrevoteStep(p, o, n1, height, n1.rs.round, log);
      Compose(p, n, n1, m, log);
    }
  }

  lemma Compose(p: Params, a: Node, b: Node, c: Node, log: seq<Vote>)
    requires Inv(p, b, log) && Progress(p, a, b, log) && Progress(p, b, c, log)
    ensures Progress(p, a, c, log)
  {
    hide Progress;
    ProgressTransitive(p, a, b, c, log);
  }

  lemma EnterNewRoundStep(p: Params, o: Oracle, n: Node, height: nat, round: nat, log: seq<Vote>)
    requires Inv(p, n, log)
    ensures var m := EnterNewRound(p, o, n, height, round);
      Inv(p, m, log) && Progress(p, n, m, log) &&
        (n.rs.height == height ==> m.rs.height == height && round <= m.rs.round)
  {
    hide Progress, EnterPropose, StartRound, BlocksInv, LockInv, SentInv, LockHistory, SentGrounded, Decided, Backed;
    hide ValidBlockInv, CommitInv, TimeoutsInv;
    ProgressReflexive(p, n, log);
    if n.rs.height == height && (n.rs.round < round || (n.rs.round == round && n.rs.step == NEW_HEIGHT)) {
      var n1 := StartRound(n, round);
      StartRoundStep(p, n, round, log);
      hide Inv;
      var m1, m2 := ScheduleTimeout(n1, height, round, NEW_ROUND), EnterPropose(p, o, n1, height, round);
      StepAndTimeout(p, n1, m1, log, TimeoutInfo(height, round, NEW_ROUND));
      EnterProposeStep(p, o, n1, height, round, log);
      Compose(p, n, n1, m1, log);
      Compose(p, n, n1, m2, log);
      EnterProposeHeight(p, o, n1, height, round);
    }
  }

  lemma EnterProposeHeight(p: Params, o: Oracle, n: Node, height: nat, round: nat)
    ensures var m := EnterPropose(p, o, n, height, round);
      m.rs.height == n.rs.height && n.rs.round <= m.rs.round
  {
    hide PrevoteChoice, IsProposalComplete;
  }

  lemma EnterPrevoteWaitStep(p: Params, n: Node, height: nat, round: nat, log: seq<Vote>)
    requires Inv(p, n, log) && (height == n.rs.height ==> round <= n.rs.round)
    requires height == n.rs.height && round == n.rs.round ==>
      HasTwoThirdsAny(n.rs.validators, n.rs.votes, round, Prevote)
    ensures var m := EnterPrevoteWait(n, height, round);
      Inv(p, m, log) && Progress(p, n, m, log)
  {
    hide Inv, Progress, HasTwoThirdsAny;
    ProgressReflexive(p, n, log);
    if !Stale(n.rs, height, round, PREVOTE_WAIT) {
      StepAndTimeout(p, n, EnterPrevoteWait(n, height, round), log, TimeoutInfo(height, round, PREVOTE_WAIT));
    }
  }

  lemma EnterPrecommitWaitStep(p: Params, n: Node, height: nat, round: nat, log: seq<Vote>)
    requires Inv(p, n, log) && (height == n.rs.height ==> round <= n.rs.round)
    requires height == n.rs.height && round == n.rs.round ==>
      HasTwoThirdsAny(n.rs.validators, n.rs.votes, round, Precommit)
    ensures var m := EnterPrecommitWait(n, height, round);
      Inv(p, m, log) && Progress(p, n, m, log)
  {
    hide Inv, Progress, HasTwoThirdsAny;
    ProgressReflexive(p, n, log);
    if n.rs.height == height && n.rs.round == round && !n.rs.triggeredTimeoutPrecommit {
      StepAndTimeout(p, n, EnterPrecommitWait(n, height, round), log, TimeoutInfo(height, round, PRECOMMIT_WAIT));
    }
  }

  //---------------------------------------------------------------------------
  // Committing

  lemma PrepareCommitBlockFields(p: Params, rs: RoundState, b: BlockID)
    requires BlocksInv(p, rs)
    ensures var rs' := PrepareCommitBlock(rs, b);
      rs' == rs.(proposalBlock := rs'.proposalBlock, proposalParts := rs'.proposalParts) && BlocksInv(p, rs')
  {
    hide BlockMatchesBlockID, HasHeader;
    CoherentEmpty(p);
    assert Coherent(p, None, rs.proposalParts) && Coherent(p, None, rs.lockedParts);
    hide Coherent, NewPartSet;
  }

  lemma CommitPrepared(p: Params, n: Node, commitRound: nat, log: seq<Vote>)
    requires Inv(p, n, log) && NEW_ROUND <= n.rs.step < COMMIT
    requires TwoThirdsMajority(n.rs.votes, commitRound, Precommit).Some?
    requires TwoThirdsMajority(n.rs.votes, commitRound, Precommit).value.BlockID?
    ensures var b := TwoThirdsMajority(n.rs.votes, commitRound, Precommit).value;
      var m := n.(rs := PrepareCommitBlock(n.rs, b).(step := COMMIT, commitRound := commitRound));
      Inv(p, m, log) && Progress(p, n, m, log)
  {
    hide SentInv, LockHistory, SentGrounded, Decided, ValidHeightVotes, LastCommitInv, Backed, VotesGrow, LockKept;
    hide HeldFor, Coherent, TimeoutsInv, PrepareCommitBlock, TwoThirdsMajority;
    var b := TwoThirdsMajority(n.rs.votes, commitRound, Precommit).value;
    var m := n.(rs := PrepareCommitBlock(n.rs, b).(step := COMMIT, commitRound := commitRound));
    PrepareCommitBlockFields(p, n.rs, b);
    VotesGrowReflexive(n.rs.votes);
    LockKeptSame(n.rs, m.rs);
    QuietMove(p, n, m, log);
  }

  /** The node after finalizing `b` on top of its chain. */
  ghost predicate FinalizedBy(p: Params, n: Node, m: Node, b: BlockID) {
    && m.id == n.id && m.sent == n.sent && !m.panicked
    && m.chain == n.chain + [b]
    && m.timeouts == n.timeouts + {TimeoutInfo(n.rs.height + 1, 0, NEW_HEIGHT)}
    && m.rs == NewRoundState(p, m.chain, Some(GetSet(n.rs.votes, n.rs.commitRound, Precommit)), n.rs.validators)
  }

  /** Finalizing a block that the node holds complete, with its majority, meets none of the panics. */
  lemma FinalizeCommitFields(p: Params, n: Node, log: seq<Vote>)
    requires Inv(p, n, log) && MajoritiesValid(p, n.chain, log) && n.rs.step == COMMIT
    requires var b := TwoThirdsMajority(n.rs.votes, n.rs.commitRound, Precommit).value;
      BlockMatchesBlockID(n.rs.proposalBlock, n.rs.proposalParts, b)
    ensures var b := TwoThirdsMajority(n.rs.votes, n.rs.commitRound, Precommit).value;
      && FinalizedBy(p, n, FinalizeCommit(p, n, n.rs.height), b)
      && ValidID(p, n.chain, b)
      && MajorityAfter(p, n.chain, log, n.rs.commitRound, Precommit, b)
  {
    hide SentInv, LockHistory, SentGrounded, Decided, ValidHeightVotes, LastCommitInv, Backed, LockInv, ValidBlockInv;
    hide TimeoutsInv;
    hide MajorityAfter;
    var b := TwoThirdsMajority(n.rs.votes, n.rs.commitRound, Precommit).value;
    MajorityIsQuorum(p, n, log, n.rs.commitRound, Precommit, b);
    assert ValidID(p, n.chain, b);
    assert p.decode(b.parts) == n.rs.proposalBlock;
    assert n.chain == [] || LastHeight(p, n.chain) == p.initialHeight + |n.chain| - 1;
  }

  lemma NewHeightLocal(p: Params, n: Node, m: Node, log: seq<Vote>, b: BlockID)
    requires Inv(p, n, log) && n.rs.step == COMMIT && FinalizedBy(p, n, m, b)
    ensures LocalInv(p, m, log)
  {
    hide SentInv, LockHistory, SentGrounded, Decided;
    NewHeightVotesValid(p.vals(m.chain));
    assert ValidVoteSet(n.rs.validators, GetSet(n.rs.votes, n.rs.commitRound, Precommit));
    hide ValidVoteSet, GetSet, Voters, NewHeightVoteSet, TwoThirdsMajority;
    assert BasicInv(p, m);
    assert BlocksInv(p, m.rs) && LockInv(p, m.chain, m.rs) && ValidBlockInv(m.rs) &&
      Backed(m.rs.height, m.rs.votes, log);
  }

  lemma SentAtNewHeight(p: Params, n: Node, m: Node, log: seq<Vote>, b: BlockID)
    requires Inv(p, n, log) && FinalizedBy(p, n, m, b)
    ensures SentInv(p, m.id, m.sent, m.rs.height, m.rs.round, m.rs.step)
    ensures LockHistory(m.sent, m.rs) && SentGrounded(p, m.chain, log, m.sent)
  {
    hide BlocksInv, LockInv, ValidBlockInv, CommitInv, Backed, Decided, TimeoutsInv, ValidHeightVotes, LastCommitInv;
    hide MajorityAfter, ValidID, InOrder;
    forall i | 0 <= i < |n.sent|
      ensures n.sent[i].height < m.rs.height && VoteGround(p, m.chain, log, n.sent[i])
    {
      assert SentBefore(p, n.id, n.sent[i], n.rs.height, n.rs.round, n.rs.step);
      assert VoteGround(p, n.chain, log, n.sent[i]);
      assert Below(p, m.chain, n.sent[i].height) == Below(p, n.chain, n.sent[i].height);
    }
  }

  lemma DecidedGrow(p: Params, chain: seq<BlockID>, log: seq<Vote>, b: BlockID, r: int)
    requires Decided(p, chain, log) && ValidID(p, chain, b) && MajorityAfter(p, chain, log, r, Precommit, b)
    ensures Decided(p, chain + [b], log)
  {
    hide ValidID, MajorityAfter;
    var longer := chain + [b];
    forall i | 0 <= i < |longer| ensures DecidedAt(p, longer, log, i) {
      if i < |chain| {
        assert DecidedAt(p, chain, log, i);
        assert longer[..i] == chain[..i] && longer[i] == chain[i];
      } else {
        assert longer[..i] == chain && longer[i] == b;
      }
    }
  }

  lemma FinalizeCommitStep(p: Params, n: Node, log: seq<Vote>)
    requires Inv(p, n, log) && MajoritiesValid(p, n.chain, log) && n.rs.step == COMMIT
    requires var b := TwoThirdsMajority(n.rs.votes, n.rs.commitRound, Precommit).value;
      BlockMatchesBlockID(n.rs.proposalBlock, n.rs.proposalParts, b)
    ensures var m := FinalizeCommit(p, n, n.rs.height);
      Inv(p, m, log) && Progress(p, n, m, log)
  {
    hide SentInv, LockHistory, SentGrounded, Decided, ValidHeightVotes, LastCommitInv, Backed, LockInv, ValidBlockInv;
    hide TimeoutsInv, BlocksInv;
    hide MajorityAfter, FinalizeCommit, BlockMatchesBlockID, MajoritiesValid, Justified;
    var b := TwoThirdsMajority(n.rs.votes, n.rs.commitRound, Precommit).value;
    var m := FinalizeCommit(p, n, n.rs.height);
    FinalizeCommitFields(p, n, log);
    NewHeightLocal(p, n, m, log, b);
    SentAtNewHeight(p, n, m, log, b);
    DecidedGrow(p, n.chain, log, b, n.rs.commitRound);
  }

  lemma TryFinalizeCommitStep(p: Params, n: Node, log: seq<Vote>)
    requires Inv(p, n, log) && MajoritiesValid(p, n.chain, log) && n.rs.step == COMMIT
    ensures var m := TryFinalizeCommit(p, n, n.rs.height);
      Inv(p, m, log) && Progress(p, n, m, log)
  {
    hide Progress, MajoritiesValid, FinalizeCommit, SentInv, LockHistory, SentGrounded, Decided, Backed, LockInv;
    hide ValidBlockInv, BlocksInv;
    hide IsComplete;
    ProgressReflexive(p, n, log);
    var maj := TwoThirdsMajority(n.rs.votes, n.rs.commitRound, Precommit);
    if BlockMatchesBlockID(n.rs.proposalBlock, n.rs.proposalParts, maj.value) {
      FinalizeCommitStep(p, n, log);
    }
  }

  lemma EnterCommitStep(p: Params, n: Node, height: nat, commitRound: nat, log: seq<Vote>)
    requires Inv(p, n, log) && MajoritiesValid(p, n.chain, log) && n.rs.height == height && NEW_ROUND <= n.rs.step
    requires TwoThirdsMajority(n.rs.votes, commitRound, Precommit).Some?
    requires TwoThirdsMajority(n.rs.votes, commitRound, Precommit).value.BlockID?
    ensures var m := EnterCommit(p, n, height, commitRound);
      Inv(p, m, log) && Progress(p, n, m, log)
  {
    hide Inv, Progress, MajoritiesValid, TryFinalizeCommit, TwoThirdsMajority;
    ProgressReflexive(p, n, log);
    if n.rs.step < COMMIT {
      var b := TwoThirdsMajority(n.rs.votes, commitRound, Precommit).value;
      PrepareCommitHeight(n.rs, b);
      var n1 := n.(rs := PrepareCommitBlock(n.rs, b).(step := COMMIT, commitRound := commitRound));
      CommitPrepared(p, n, commitRound, log);
      TryFinalizeCommitStep(p, n1, log);
      Compose(p, n, n1, TryFinalizeCommit(p, n1, height), log);
    }
  }

  lemma PrepareCommitHeight(rs: RoundState, b: BlockID)
    ensures PrepareCommitBlock(rs, b).height == rs.height
  {
  }

  //---------------------------------------------------------------------------
  // Proposals and block parts

  /** `n` distinct indices below `n` are all the indices below `n`. */
  lemma {:induction false} FullBelow(s: set<nat>, n: nat)
    requires forall i :: i in s ==> i < n
    ensures |s| <= n
    ensures |s| == n ==> forall i :: 0 <= i < n ==> i in s
  {
    if n > 0 {
      FullBelow(s - {n - 1}, n - 1);
      assert n - 1 !in s ==> s - {n - 1} == s;
    } else {
      assert s == {};
    }
  }

  /** A complete part set takes no further part, so a shared one cannot change under a held block. */
  lemma CompleteTakesNoPart(p: Params, block: Option<Block>, ps: PartSet, part: Part)
    requires Coherent(p, block, Some(ps)) && IsComplete(ps)
    ensures AddPart(ps, part) == (ps, false)
  {
    FullBelow(ps.have, ps.header.total);
  }

  lemma AddPartCoherent(p: Params, block: Option<Block>, ps: PartSet, part: Part)
    requires Coherent(p, block, Some(ps))
    ensures var q := AddPart(ps, part).0;
      Coherent(p, block, Some(q)) && (IsComplete(q) ==> Coherent(p, p.decode(q.header), Some(q)))
  {
    if block.Some? {
      CompleteTakesNoPart(p, block, ps, part);
    }
  }

  lemma AddProposalBlockPartFields(p: Params, n: Node, height: nat, part: Part, oversize: bool)
    requires Coherent(p, n.rs.proposalBlock, n.rs.proposalParts)
    ensures var (m, added) := AddProposalBlockPart(p, n, height, part, oversize);
      && m == n.(rs := n.rs.(proposalBlock := m.rs.proposalBlock, proposalParts := m.rs.proposalParts))
      && Coherent(p, m.rs.proposalBlock, m.rs.proposalParts)
      && (added ==> n.rs.height == height)
  {
    hide Coherent, AddPart, IsComplete;
    if n.rs.proposalParts.Some? {
      AddPartCoherent(p, n.rs.proposalBlock, n.rs.proposalParts.value, part);
    }
  }

  /** Only the proposal changes. */
  lemma ProposalMove(p: Params, n: Node, m: Node, log: seq<Vote>)
    requires Inv(p, n, log)
    requires m == n.(rs := n.rs.(proposal := m.rs.proposal, proposalBlock := m.rs.proposalBlock,
      proposalParts := m.rs.proposalParts))
    requires Coherent(p, m.rs.proposalBlock, m.rs.proposalParts)
    ensures Inv(p, m, log) && Progress(p, n, m, log)
  {
    hide SentInv, LockHistory, SentGrounded, Decided, ValidHeightVotes, LastCommitInv, Backed, VotesGrow, LockKept;
    hide HeldFor, CommitInv, Coherent, TimeoutsInv;
    VotesGrowReflexive(n.rs.votes);
    LockKeptSame(n.rs, m.rs);
    QuietMove(p, n, m, log);
  }

  lemma SetProposalStep(p: Params, n: Node, proposal: Proposal, accepted: bool, log: seq<Vote>)
    requires Inv(p, n, log)
    ensures var m := SetProposal(n, proposal, accepted);
      Inv(p, m, log) && Progress(p, n, m, log)
  {
    hide Progress, SentInv, LockHistory, SentGrounded, Decided, LockInv, ValidBlockInv, CommitInv, Backed, TimeoutsInv;
    CoherentEmpty(p);
    ProposalMove(p, n, SetProposal(n, proposal, accepted), log);
  }

  /** Only the valid block changes, to one with a polka in the current round. */
  lemma ValidBlockMove(p: Params, n: Node, m: Node, log: seq<Vote>)
    requires Inv(p, n, log)
    requires m == n.(rs := n.rs.(validRound := m.rs.validRound, validBlock := m.rs.validBlock,
      validParts := m.rs.validParts))
    requires Coherent(p, m.rs.validBlock, m.rs.validParts) && ValidBlockInv(m.rs)
    ensures Inv(p, m, log) && Progress(p, n, m, log)
  {
    hide SentInv, LockHistory, SentGrounded, Decided, ValidHeightVotes, LastCommitInv, Backed, VotesGrow, LockKept;
    hide HeldFor, CommitInv, Coherent, TimeoutsInv;
    VotesGrowReflexive(n.rs.votes);
    LockKeptSame(n.rs, m.rs);
    QuietMove(p, n, m, log);
  }

  lemma SameChain(p: Params, n: Node, m: Node, log: seq<Vote>)
    requires Inv(p, n, log) && Inv(p, m, log) && Progress(p, n, m, log) && m.rs.height == n.rs.height
    ensures m.chain == n.chain
  {
  }

  lemma NoteValidBlockStep(p: Params, n: Node, log: seq<Vote>)
    requires Inv(p, n, log)
    ensures Inv(p, NoteValidBlock(n), log) && Progress(p, n, NoteValidBlock(n), log)
  {
    hide Progress, SentInv, LockHistory, SentGrounded, Decided, LockInv, CommitInv, Backed, TimeoutsInv, Coherent;
    ValidBlockMove(p, n, NoteValidBlock(n), log);
  }

  lemma EnterPrevoteHeight(p: Params, o: Oracle, n: Node, height: nat, round: nat)
    ensures var m := EnterPrevote(p, o, n, height, round);
      m.rs.height == n.rs.height && m.chain == n.chain
  {
    hide PrevoteChoice;
  }

  lemma HandleCompleteProposalStep(p: Params, o: Oracle, n: Node, log: seq<Vote>)
    requires Inv(p, n, log) && MajoritiesValid(p, n.chain, log)
    ensures var m := HandleCompleteProposal(p, o, n, n.rs.height);
      Inv(p, m, log) && Progress(p, n, m, log)
  {
    hide Inv, Progress, MajoritiesValid, EnterPrevote, EnterPrecommit, TryFinalizeCommit, IsProposalComplete;
    var n1 := NoteValidBlock(n);
    NoteValidBlockStep(p, n, log);
    var n2 := EnterPrevote(p, o, n1, n.rs.height, n1.rs.round);
    EnterPrevoteStep(p, o, n1, n.rs.height, n1.rs.round, log);
    EnterPrevoteHeight(p, o, n1, n.rs.height, n1.rs.round);
    Compose(p, n, n1, n2, log);
    var n3 := EnterPrecommit(p, o, n2, n.rs.height, n2.rs.round);
    EnterPrecommitStep(p, o, n2, n.rs.height, n2.rs.round, log);
    Compose(p, n, n2, n3, log);
    if n1.rs.step == COMMIT {
      TryFinalizeCommitStep(p, n1, log);
      Compose(p, n, n1, TryFinalizeCommit(p, n1, n.rs.height), log);
    }
  }

  lemma AddProposalBlockPartStep(p: Params, n: Node, height: nat, part: Part, oversize: bool, log: seq<Vote>)
    requires Inv(p, n, log)
    ensures var m := AddProposalBlockPart(p, n, height, part, oversize).0;
      Inv(p, m, log) && Progress(p, n, m, log)
  {
    hide Progress, AddProposalBlockPart, SentInv, LockHistory, SentGrounded, Decided, LockInv, ValidBlockInv, CommitInv;
    hide Backed, TimeoutsInv, Coherent;
    AddProposalBlockPartFields(p, n, height, part, oversize);
    ProposalMove(p, n, AddProposalBlockPart(p, n, height, part, oversize).0, log);
  }

  lemma HandleBlockPartStep(p: Params, o: Oracle, n: Node, height: nat, part: Part, oversize: bool, log: seq<Vote>)
    requires Inv(p, n, log) && MajoritiesValid(p, n.chain, log)
    ensures var m := HandleBlockPart(p, o, n, height, part, oversize);
      Inv(p, m, log) && Progress(p, n, m, log)
  {
    hide Progress, MajoritiesValid, HandleCompleteProposal, AddProposalBlockPart, IsComplete;
    hide SentInv, LockHistory, SentGrounded, Decided, LockInv, ValidBlockInv, CommitInv, Backed, TimeoutsInv, Coherent;
    var (n1, added) := AddProposalBlockPart(p, n, height, part, oversize);
    AddProposalBlockPartFields(p, n, height, part, oversize);
    ProposalMove(p, n, n1, log);
    if added {
      HandleCompleteProposalStep(p, o, n1, log);
      Compose(p, n, n1, HandleCompleteProposal(p, o, n1, height), log);
    }
  }

  //---------------------------------------------------------------------------
  // Votes

  /** Only the collected votes change. */
  lemma VotesMove(p: Params, n: Node, votes: HeightVoteSet, log: seq<Vote>)
    requires Inv(p, n, log) && votes.round == n.rs.votes.round
    requires VotesGrow(n.rs.votes, votes) && ValidHeightVotes(n.rs.validators, votes) && Backed(n.rs.height, votes, log)
    ensures var m := n.(rs := n.rs.(votes := votes));
      Inv(p, m, log) && Progress(p, n, m, log)
  {
    hide SentInv, LockHistory, SentGrounded, Decided, ValidHeightVotes, LastCommitInv, Backed, VotesGrow, LockKept;
    hide HeldFor, CommitInv, Coherent, TimeoutsInv;
    var m := n.(rs := n.rs.(votes := votes));
    HeldForGrow(n.rs.votes, votes, n.rs.round, n.rs.round, n.rs.lockedRound, n.rs.lockedBlock, n.rs.lockedParts);
    HeldForGrow(n.rs.votes, votes, n.rs.round, n.rs.round, n.rs.validRound, n.rs.validBlock, n.rs.validParts);
    CommitInvGrow(n.rs.votes, votes, n.rs.step, n.rs.commitRound);
    LockKeptSame(n.rs, m.rs);
    QuietMove(p, n, m, log);
  }

  lemma CollectVote(p: Params, n: Node, vote: Vote, peer: Peer, log: seq<Vote>)
    requires Inv(p, n, log) && vote in log && vote.height == n.rs.height
    ensures var m := n.(rs := n.rs.(votes := AddToHeight(n.rs.validators, n.rs.votes, vote, peer).0));
      Inv(p, m, log) && Progress(p, n, m, log)
  {
    hide SentInv, LockHistory, SentGrounded, Decided, ValidHeightVotes, LastCommitInv, VotesGrow, LockInv;
    hide ValidBlockInv;
    hide BlocksInv, CommitInv, TimeoutsInv, AddToHeight, Voters, GetSet, Progress;
    var (votes, added) := AddToHeight(n.rs.validators, n.rs.votes, vote, peer);
    AddToHeightValid(n.rs.validators, n.rs.votes, vote, peer);
    forall r, t, c, v | v in Voters(GetSet(votes, r, t), c)
      ensures r >= 0 && Vote(n.rs.height, r, t, c, v) in log
    {
      if v !in Voters(GetSet(n.rs.votes, r, t), c) {
        assert Vote(n.rs.height, r, t, c, v) == vote;
      }
    }
    VotesMove(p, n, votes, log);
  }

  /** A polka above the lock for something else drops it. */
  lemma UnlockOnPolkaStep(p: Params, n: Node, round: nat, b: BlockID, log: seq<Vote>)
    requires Inv(p, n, log) && Polka(n.rs.votes, round, b)
    ensures var m := n.(rs := UnlockOnPolka(n.rs, round, b));
      Inv(p, m, log) && Progress(p, n, m, log)
  {
    hide SentInv, LockHistory, SentGrounded, Decided, ValidHeightVotes, LastCommitInv, Backed, VotesGrow;
    hide CommitInv, TimeoutsInv, ValidBlockInv, TwoThirdsMajority;
    var m := n.(rs := UnlockOnPolka(n.rs, round, b));
    CoherentEmpty(p);
    VotesGrowReflexive(n.rs.votes);
    if m != n {
      assert n.rs.lockedParts.Some?;
      hide Coherent;
      assert PolkaAgainst(m.rs.votes, round, LockedID(n.rs));
    }
    assert ValidBlockInv(m.rs) by { ValidBlockUnaffected(n.rs, m.rs); }
    QuietMove(p, n, m, log);
  }

  lemma ValidBlockUnaffected(rs: RoundState, rs': RoundState)
    requires ValidBlockInv(rs) && rs'.votes == rs.votes && rs'.round == rs.round
    requires rs'.validRound == rs.validRound && rs'.validBlock == rs.validBlock && rs'.validParts == rs.validParts
    ensures ValidBlockInv(rs')
  {
  }

  lemma UpdateValidBlockFields(p: Params, rs: RoundState, round: nat, b: BlockID)
    requires BlocksInv(p, rs) && ValidBlockInv(rs) && Polka(rs.votes, round, b)
    ensures var rs' := UpdateValidBlock(rs, round, b);
      && rs' == rs.(proposalBlock := rs'.proposalBlock, proposalParts := rs'.proposalParts,
                    validRound := rs'.validRound, validBlock := rs'.validBlock, validParts := rs'.validParts)
      && BlocksInv(p, rs') && ValidBlockInv(rs')
  {
    hide TwoThirdsMajority;
    CoherentEmpty(p);
    assert Coherent(p, None, rs.proposalParts);
    hide Coherent, NewPartSet;
  }

  lemma UpdateValidBlockStep(p: Params, n: Node, round: nat, b: BlockID, log: seq<Vote>)
    requires Inv(p, n, log) && Polka(n.rs.votes, round, b)
    ensures var m := n.(rs := UpdateValidBlock(n.rs, round, b));
      Inv(p, m, log) && Progress(p, n, m, log)
  {
    hide SentInv, LockHistory, SentGrounded, Decided, ValidHeightVotes, LastCommitInv, Backed, VotesGrow, LockKept;
    hide HeldFor, CommitInv, Coherent, TimeoutsInv, UpdateValidBlock;
    var m := n.(rs := UpdateValidBlock(n.rs, round, b));
    UpdateValidBlockFields(p, n.rs, round, b);
    VotesGrowReflexive(n.rs.votes);
    LockKeptSame(n.rs, m.rs);
    QuietMove(p, n, m, log);
  }

  //---------------------------------------------------------------------------
  // Reacting to votes

  lemma NotePolka(p: Params, n: Node, round: nat, b: BlockID, log: seq<Vote>)
    requires Inv(p, n, log) && Polka(n.rs.votes, round, b)
    ensures var m := n.(rs := UpdateValidBlock(UnlockOnPolka(n.rs, round, b), round, b));
      && Inv(p, m, log) && Progress(p, n, m, log)
      && m.rs.votes == n.rs.votes && m.rs.height == n.rs.height && m.rs.round == n.rs.round
  {
    hide Inv, Progress, UnlockOnPolka, UpdateValidBlock;
    var n1 := n.(rs := UnlockOnPolka(n.rs, round, b));
    UnlockOnPolkaStep(p, n, round, b, log);
    UnlockOnPolkaVotes(n.rs, round, b);
    UpdateValidBlockStep(p, n1, round, b, log);
    Compose(p, n, n1, n1.(rs := UpdateValidBlock(n1.rs, round, b)), log);
  }

  lemma UnlockOnPolkaVotes(rs: RoundState, round: nat, b: BlockID)
    ensures UnlockOnPolka(rs, round, b).votes == rs.votes
    ensures var rs' := UpdateValidBlock(UnlockOnPolka(rs, round, b), round, b);
      rs'.votes == rs.votes && rs'.height == rs.height && rs'.round == rs.round
  {
  }

  lemma AfterPrevoteStep(p: Params, o: Oracle, n: Node, vote: Vote, log: seq<Vote>)
    requires Inv(p, n, log) && MajoritiesValid(p, n.chain, log)
    ensures var m := AfterPrevote(p, o, n, vote);
      Inv(p, m, log) && Progress(p, n, m, log)
  {
    hide Inv, Progress, MajoritiesValid, EnterNewRound, EnterPrecommit, EnterPrevoteWait, EnterPrevote;
    hide UnlockOnPolka, UpdateValidBlock, HasTwoThirdsAny, IsProposalComplete, TwoThirdsMajority;
    var polka := TwoThirdsMajority(n.rs.votes, vote.round, Prevote);
    ProgressReflexive(p, n, log);
    var n1 := n;
    if polka.Some? {
      NotePolka(p, n, vote.round, polka.value, log);
      n1 := n.(rs := UpdateValidBlock(UnlockOnPolka(n.rs, vote.round, polka.value), vote.round, polka.value));
    }
    if n1.rs.round < vote.round {
      EnterNewRoundStep(p, o, n1, n1.rs.height, vote.round, log);
      Compose(p, n, n1, EnterNewRound(p, o, n1, n1.rs.height, vote.round), log);
    } else if n1.rs.round == vote.round {
      EnterPrecommitStep(p, o, n1, n1.rs.height, vote.round, log);
      Compose(p, n, n1, EnterPrecommit(p, o, n1, n1.rs.height, vote.round), log);
      if HasTwoThirdsAny(n1.rs.validators, n1.rs.votes, vote.round, Prevote) {
        EnterPrevoteWaitStep(p, n1, n1.rs.height, vote.round, log);
        Compose(p, n, n1, EnterPrevoteWait(n1, n1.rs.height, vote.round), log);
      }
    }
    EnterPrevoteStep(p, o, n1, n1.rs.height, n1.rs.round, log);
    Compose(p, n, n1, EnterPrevote(p, o, n1, n1.rs.height, n1.rs.round), log);
  }

  lemma MajorityIsAny(vals: ValidatorSet, hvs: HeightVoteSet, r: int, t: VoteType)
    requires ValidHeightVotes(vals, hvs) && TwoThirdsMajority(hvs, r, t).Some?
    ensures HasTwoThirdsAny(vals, hvs, r, t)
  {
    var vs := GetSet(hvs, r, t);
    assert ValidVoteSet(vals, vs);
    SumMonotone(vals.power, Voters(vs, vs.maj23.value), vs.votes.Keys);
  }

  /** Entering a round neither loses nor adds votes. */
  lemma EnterNewRoundVotes(p: Params, o: Oracle, n: Node, height: nat, round: nat)
    ensures var m := EnterNewRound(p, o, n, height, round);
      m.rs.validators == n.rs.validators && forall r, t :: GetSet(m.rs.votes, r, t) == GetSet(n.rs.votes, r, t)
  {
    hide GetSet, PrevoteChoice, IsProposalComplete, SetRound;
    SetRoundKeepsVotes(n.rs.validators, n.rs.votes, round + 1);
  }

  lemma EnterPrecommitVotes(p: Params, o: Oracle, n: Node, height: nat, round: nat)
    requires round <= n.rs.round || height != n.rs.height
    ensures var m := EnterPrecommit(p, o, n, height, round);
      m.rs.validators == n.rs.validators && m.rs.votes == n.rs.votes && m.rs.height == n.rs.height &&
      m.rs.round == n.rs.round && m.chain == n.chain && (NEW_ROUND <= n.rs.step ==> NEW_ROUND <= m.rs.step)
  {
    hide PrecommitChoice;
    PrecommitChoiceFields(p, n);
  }

  lemma StepPastNewHeight(p: Params, o: Oracle, n: Node, round: nat)
    requires BasicInv(p, n)
    ensures NEW_ROUND <= EnterNewRound(p, o, n, n.rs.height, round).rs.step ||
      EnterNewRound(p, o, n, n.rs.height, round).panicked
  {
    hide GetSet, PrevoteChoice, IsProposalComplete, SetRound, ValidHeightVotes, LastCommitInv;
  }

  /** The node has moved to the vote's round and precommitted there. */
  lemma MoveToPrecommit(p: Params, o: Oracle, n: Node, round: nat, log: seq<Vote>)
    requires Inv(p, n, log) && MajoritiesValid(p, n.chain, log)
    ensures var n1 := EnterNewRound(p, o, n, n.rs.height, round);
      var n2 := EnterPrecommit(p, o, n1, n.rs.height, round);
      && Inv(p, n1, log) && Progress(p, n, n1, log) && Inv(p, n2, log) && Progress(p, n, n2, log)
      && n1.rs.height == n.rs.height && n2.rs.height == n.rs.height && n2.chain == n.chain && round <= n2.rs.round
      && round <= n1.rs.round && NEW_ROUND <= n2.rs.step
      && n2.rs.validators == n.rs.validators && n1.rs.validators == n.rs.validators
      && (forall r, t :: GetSet(n1.rs.votes, r, t) == GetSet(n.rs.votes, r, t))
      && (forall r, t :: GetSet(n2.rs.votes, r, t) == GetSet(n.rs.votes, r, t))
  {
    hide Progress, MajoritiesValid, EnterNewRound, EnterPrecommit, GetSet;
    hide BlocksInv, LockInv, ValidBlockInv, CommitInv, SentInv, LockHistory, SentGrounded, Decided, Backed, TimeoutsInv;
    var n1 := EnterNewRound(p, o, n, n.rs.height, round);
    EnterNewRoundStep(p, o, n, n.rs.height, round, log);
    EnterNewRoundVotes(p, o, n, n.rs.height, round);
    StepPastNewHeight(p, o, n, round);
    SameChain(p, n, n1, log);
    EnterPrecommitStep(p, o, n1, n.rs.height, round, log);
    EnterPrecommitVotes(p, o, n1, n.rs.height, round);
    Compose(p, n, n1, EnterPrecommit(p, o, n1, n.rs.height, round), log);
  }

  lemma AfterPrecommitMajority(p: Params, o: Oracle, n: Node, vote: Vote, log: seq<Vote>)
    requires Inv(p, n, log) && MajoritiesValid(p, n.chain, log)
    requires TwoThirdsMajority(n.rs.votes, vote.round, Precommit).Some?
    ensures var m := AfterPrecommit(p, o, n, vote);
      Inv(p, m, log) && Progress(p, n, m, log)
  {
    hide Inv, Progress, MajoritiesValid, EnterNewRound, EnterPrecommit, EnterPrecommitWait, EnterCommit, GetSet, HasAll;
    assert ValidHeightVotes(n.rs.validators, n.rs.votes) by { InvBasic(p, n, log); }
    MajorityIsAny(n.rs.validators, n.rs.votes, vote.round, Precommit);
    MoveToPrecommit(p, o, n, vote.round, log);
    var n1 := EnterNewRound(p, o, n, n.rs.height, vote.round);
    var n2 := EnterPrecommit(p, o, n1, n.rs.height, vote.round);
    if TwoThirdsMajority(n.rs.votes, vote.round, Precommit).value.BlockID? {
      var n3 := EnterCommit(p, n2, n.rs.height, vote.round);
      EnterCommitStep(p, n2, n.rs.height, vote.round, log);
      Compose(p, n, n2, n3, log);
      var n4 := EnterNewRound(p, o, n3, n3.rs.height, 0);
      EnterNewRoundStep(p, o, n3, n3.rs.height, 0, log);
      Compose(p, n, n3, n4, log);
    } else {
      EnterPrecommitWaitStep(p, n2, n.rs.height, vote.round, log);
      Compose(p, n, n2, EnterPrecommitWait(n2, n.rs.height, vote.round), log);
    }
  }

  lemma InvBasic(p: Params, n: Node, log: seq<Vote>)
    requires Inv(p, n, log)
    ensures BasicInv(p, n)
  {
  }

  lemma AfterPrecommitStep(p: Params, o: Oracle, n: Node, vote: Vote, log: seq<Vote>)
    requires Inv(p, n, log) && MajoritiesValid(p, n.chain, log)
    ensures var m := AfterPrecommit(p, o, n, vote);
      Inv(p, m, log) && Progress(p, n, m, log)
  {
    hide Inv, Progress, MajoritiesValid, EnterNewRound, EnterPrecommit, EnterPrecommitWait, EnterCommit, GetSet, HasAll;
    ProgressReflexive(p, n, log);
    if TwoThirdsMajority(n.rs.votes, vote.round, Precommit).Some? {
      AfterPrecommitMajority(p, o, n, vote, log);
    } else if HasTwoThirdsAny(n.rs.validators, n.rs.votes, vote.round, Precommit) {
      MoveToPrecommit(p, o, n, vote.round, log);
      var n1 := EnterNewRound(p, o, n, n.rs.height, vote.round);
      if n.rs.round <= vote.round {
        NewRoundAt(p, o, n, vote.round);
        EnterPrecommitWaitStep(p, n1, n.rs.height, vote.round, log);
        Compose(p, n, n1, EnterPrecommitWait(n1, n.rs.height, vote.round), log);
      }
    }
  }

  lemma NewRoundAt(p: Params, o: Oracle, n: Node, round: nat)
    requires n.rs.round <= round
    ensures var m := EnterNewRound(p, o, n, n.rs.height, round);
      m.rs.round == round || m.panicked
  {
    hide GetSet, PrevoteChoice, IsProposalComplete, SetRound;
  }

  lemma AddLastCommitVoteStep(p: Params, o: Oracle, n: Node, vote: Vote, log: seq<Vote>)
    requires Inv(p, n, log)
    ensures var m := AddLastCommitVote(p, o, n, vote);
      Inv(p, m, log) && Progress(p, n, m, log)
  {
    hide Progress, EnterNewRound, AddToSet, HasAll, ValidVoteSet;
    hide BlocksInv, LockInv, ValidBlockInv, CommitInv, SentInv, LockHistory, SentGrounded, Decided, Backed, TimeoutsInv;
    ProgressReflexive(p, n, log);
    if n.rs.lastCommit.Some? {
      var (vs, added) := AddToSet(n.rs.lastValidators, n.rs.lastCommit.value, vote.validator, vote.blockID);
      AddToSetValid(n.rs.lastValidators, n.rs.lastCommit.value, vote.validator, vote.blockID);
      var n1 := n.(rs := n.rs.(lastCommit := Some(vs)));
      LastCommitMove(p, n, n1, log);
      EnterNewRoundStep(p, o, n1, n1.rs.height, 0, log);
      Compose(p, n, n1, EnterNewRound(p, o, n1, n1.rs.height, 0), log);
    }
  }

  lemma LastCommitMove(p: Params, n: Node, m: Node, log: seq<Vote>)
    requires Inv(p, n, log) && m == n.(rs := n.rs.(lastCommit := m.rs.lastCommit))
    requires LastCommitInv(m.chain, m.rs.lastCommit, m.rs.lastValidators)
    ensures Inv(p, m, log) && Progress(p, n, m, log)
  {
    hide SentInv, LockHistory, SentGrounded, Decided, ValidHeightVotes, LastCommitInv, Backed, VotesGrow, LockKept;
    hide HeldFor, CommitInv, Coherent, TimeoutsInv;
    VotesGrowReflexive(n.rs.votes);
    LockKeptSame(n.rs, m.rs);
    QuietMove(p, n, m, log);
  }

  lemma AddVoteStep(p: Params, o: Oracle, n: Node, vote: Vote, peer: Peer, log: seq<Vote>)
    requires Inv(p, n, log) && MajoritiesValid(p, n.chain, log) && vote in log
    ensures var m := AddVote(p, o, n, vote, peer);
      Inv(p, m, log) && Progress(p, n, m, log)
  {
    hide Inv, Progress, MajoritiesValid, AddToHeight, AfterPrevote, AfterPrecommit, AddLastCommitVote;
    ProgressReflexive(p, n, log);
    AddLastCommitVoteStep(p, o, n, vote, log);
    if vote.height == n.rs.height {
      var n1 := n.(rs := n.rs.(votes := AddToHeight(n.rs.validators, n.rs.votes, vote, peer).0));
      CollectVote(p, n, vote, peer, log);
      AfterPrevoteStep(p, o, n1, vote, log);
      AfterPrecommitStep(p, o, n1, vote, log);
      Compose(p, n, n1, AfterPrevote(p, o, n1, vote), log);
      Compose(p, n, n1, AfterPrecommit(p, o, n1, vote), log);
    }
  }

  //---------------------------------------------------------------------------
  // The receive routine

  lemma HandleTimeoutStep(p: Params, o: Oracle, n: Node, ti: TimeoutInfo, log: seq<Vote>)
    requires Inv(p, n, log) && MajoritiesValid(p, n.chain, log) && ti in n.timeouts
    ensures var m := HandleTimeout(p, o, n, ti);
      Inv(p, m, log) && Progress(p, n, m, log)
  {
    hide Progress, MajoritiesValid, EnterNewRound, EnterPropose, EnterPrevote, EnterPrecommit;
    hide BlocksInv, LockInv, ValidBlockInv, CommitInv, SentInv, LockHistory, SentGrounded, Decided, Backed, BasicInv;
    ProgressReflexive(p, n, log);
    if ti.height == n.rs.height && ti.round >= n.rs.round {
      assert ti.round == n.rs.round;
      hide Inv;
      EnterNewRoundStep(p, o, n, ti.height, 0, log);
      EnterProposeStep(p, o, n, ti.height, ti.round, log);
      EnterPrevoteStep(p, o, n, ti.height, ti.round, log);
      EnterPrecommitStep(p, o, n, ti.height, ti.round, log);
      var n1 := EnterPrecommit(p, o, n, ti.height, ti.round);
      EnterNewRoundStep(p, o, n1, ti.height, ti.round + 1, log);
      Compose(p, n, n1, EnterNewRound(p, o, n1, ti.height, ti.round + 1), log);
    }
  }

  lemma HandleTxsAvailableStep(p: Params, o: Oracle, n: Node, log: seq<Vote>)
    requires Inv(p, n, log)
    ensures var m := HandleTxsAvailable(p, o, n);
      Inv(p, m, log) && Progress(p, n, m, log)
  {
    hide Inv, Progress, EnterPropose;
    ProgressReflexive(p, n, log);
    if n.rs.round == 0 {
      EnterProposeStep(p, o, n, n.rs.height, 0, log);
      ScheduledMove(p, n, NEW_ROUND, log);
    }
  }

  lemma ScheduledMove(p: Params, n: Node, step: nat, log: seq<Vote>)
    requires Inv(p, n, log) && step == NEW_ROUND
    ensures var m := ScheduleTimeout(n, n.rs.height, n.rs.round, step);
      Inv(p, m, log) && Progress(p, n, m, log)
  {
    hide SentInv, LockHistory, SentGrounded, Decided, ValidHeightVotes, LastCommitInv, Backed, VotesGrow, LockKept;
    hide HeldFor, CommitInv, Coherent, TimeoutsInv;
    VotesGrowReflexive(n.rs.votes);
    TimeoutsAdd(n.timeouts, n.rs.height, n.rs.round, TimeoutInfo(n.rs.height, n.rs.round, step));
    LockKeptSame(n.rs, n.rs);
    QuietMove(p, n, ScheduleTimeout(n, n.rs.height, n.rs.round, step), log);
  }

  lemma PeerMaj23Step(p: Params, n: Node, r: nat, t: VoteType, from: Peer, b: BlockID, log: seq<Vote>)
    requires Inv(p, n, log)
    ensures var m := n.(rs := n.rs.(votes := SetPeerMaj23InHeight(n.rs.votes, r, t, from, b)));
      Inv(p, m, log) && Progress(p, n, m, log)
  {
    hide SentInv, LockHistory, SentGrounded, Decided, ValidHeightVotes, LastCommitInv, VotesGrow, LockInv;
    hide ValidBlockInv;
    hide BlocksInv, CommitInv, TimeoutsInv, SetPeerMaj23InHeight, Voters, GetSet, Progress;
    SetPeerMaj23InHeightValid(n.rs.validators, n.rs.votes, r, t, from, b);
    VotesMove(p, n, SetPeerMaj23InHeight(n.rs.votes, r, t, from, b), log);
  }

  lemma InitNodeInv(p: Params, u: Address)
    requires 1 <= p.initialHeight && p.vals([]).Valid()
    ensures Inv(p, InitNode(p, u), [])
  {
    NewHeightVotesValid(p.vals([]));
    hide ValidVoteSet, GetSet, Voters;
  }

  /** What the environment may hand to a node: only scheduled timeouts and genuinely signed votes. */
  ghost predicate Deliverable(n: Node, e: Event, log: seq<Vote>) {
    && (e.Timeout? ==> e.ti in n.timeouts)
    && (e.VoteMessage? ==> e.vote in log)
  }

  /** Every event is handled without a panic, keeps the invariant and makes only justified progress. */
  lemma HandleStep(p: Params, o: Oracle, n: Node, e: Event, log: seq<Vote>)
    requires Inv(p, n, log) && MajoritiesValid(p, n.chain, log) && Deliverable(n, e, log)
    ensures var m := Handle(p, o, n, e);
      Inv(p, m, log) && Progress(p, n, m, log)
  {
    hide Inv, Progress, MajoritiesValid, HandleTimeout, HandleTxsAvailable, SetProposal, HandleBlockPart, AddVote;
    hide SetPeerMaj23InHeight;
    match e
    case Timeout(ti) => HandleTimeoutStep(p, o, n, ti, log);
    case TxsAvailable => HandleTxsAvailableStep(p, o, n, log);
    case ProposalMessage(proposal, accepted) => SetProposalStep(p, n, proposal, accepted, log);
    case BlockPartMessage(height, part, oversize) => HandleBlockPartStep(p, o, n, height, part, oversize, log);
    case VoteMessage(vote, peer) => AddVoteStep(p, o, n, vote, peer, log);
    case PeerMaj23(r, t, from, b) => PeerMaj23Step(p, n, r, t, from, b, log);
  }
}
