/**
  What every handler keeps true of a node, whatever order votes, parts, proposals
  and timeouts arrive in: locks are justified by polkas, blocks and part sets stay
  coherent, at most one prevote and one precommit is signed in a round, and none
  of the implementation's panics is reached.
*/
module ConsensusInvariant {
  import opened Power
  import opened VoteSets
  import opened Consensus

  /** The validators with a vote for `b` in the log. */
  ghost function VotersIn(log: seq<Vote>, h: nat, r: int, t: VoteType, b: BlockID): set<Address> {
    set v: Vote | v in log && v.height == h && v.round == r && v.kind == t && v.blockID == b :: v.validator
  }

  /** More than two thirds of the power voted for `b` in the log. */
  ghost predicate Majority(vals: ValidatorSet, log: seq<Vote>, h: nat, r: int, t: VoteType, b: BlockID) {
    IsQuorum(vals, VotersIn(log, h, r, t, b))
  }

  /** A majority at the height that follows the finalized blocks `chain`. */
  ghost predicate MajorityAfter(p: Params, chain: seq<BlockID>, log: seq<Vote>, r: int, t: VoteType, b: BlockID) {
    Majority(p.vals(chain), log, p.initialHeight + |chain|, r, t, b)
  }

  /** `b` names a block that decodes from its part set and is valid after `chain`. */
  ghost predicate ValidID(p: Params, chain: seq<BlockID>, b: BlockID) {
    && b.BlockID?
    && p.decode(b.parts).Some?
    && p.decode(b.parts).value.hash == b.hash
    && p.valid(chain, p.decode(b.parts).value)
  }

  /** The finalized blocks below height `h`. */
  ghost function Below(p: Params, chain: seq<BlockID>, h: nat): seq<BlockID> {
    if p.initialHeight <= h <= p.initialHeight + |chain| then chain[..h - p.initialHeight] else chain
  }

  ghost predicate Polka(votes: HeightVoteSet, r: int, b: BlockID) {
    TwoThirdsMajority(votes, r, Prevote) == Some(b)
  }

  ghost predicate PolkaAgainst(votes: HeightVoteSet, r: int, b: BlockID) {
    TwoThirdsMajority(votes, r, Prevote).Some? && !Polka(votes, r, b)
  }

  ghost function LockedID(rs: RoundState): BlockID {
    IdOf(rs.lockedBlock, rs.lockedParts)
  }

  /** (height, round) of `a` is not after that of `b`. */
  ghost predicate NotAfter(ah: nat, ar: nat, bh: nat, br: nat) {
    ah < bh || (ah == bh && ar <= br)
  }

  //---------------------------------------------------------------------------
  // The invariant. Each part names only the fields it depends on.

  ghost predicate BasicInv(p: Params, n: Node) {
    && 1 <= p.initialHeight
    && n.rs.height == p.initialHeight + |n.chain|
    && n.rs.validators == p.vals(n.chain)
    && !n.panicked
    && NEW_HEIGHT <= n.rs.step <= COMMIT
    && (n.rs.votes.round == n.rs.round + 1 || n.rs.votes.round == n.rs.round == 0)
    && (n.rs.step == NEW_HEIGHT ==> n.rs.round == 0)
    && ValidHeightVotes(n.rs.validators, n.rs.votes)
    && LastCommitInv(n.chain, n.rs.lastCommit, n.rs.lastValidators)
  }

  /** After the first height the node holds the majority that committed the previous block. */
  ghost predicate LastCommitInv(chain: seq<BlockID>, lastCommit: Option<VoteSet>, vals: ValidatorSet) {
    && (lastCommit.Some? ==> ValidVoteSet(vals, lastCommit.value))
    && (chain != [] ==> lastCommit.Some? && lastCommit.value.maj23.Some?)
  }

  /** Every counted vote is in the log. */
  ghost predicate Backed(height: nat, votes: HeightVoteSet, log: seq<Vote>) {
    forall r, t, c, v :: v in Voters(GetSet(votes, r, t), c) ==> r >= 0 && Vote(height, r, t, c, v) in log
  }

  /** A block is held only with the complete part set that decodes to it. */
  ghost predicate Coherent(p: Params, block: Option<Block>, parts: Option<PartSet>) {
    && (parts.Some? ==> forall i :: i in parts.value.have ==> i < parts.value.header.total)
    && (block.Some? ==> parts.Some? && IsComplete(parts.value) && p.decode(parts.value.header) == block)
  }

  ghost predicate BlocksInv(p: Params, rs: RoundState) {
    && Coherent(p, rs.proposalBlock, rs.proposalParts)
    && Coherent(p, rs.lockedBlock, rs.lockedParts)
    && Coherent(p, rs.validBlock, rs.validParts)
  }

  /** A block held on account of a polka, and the round of that polka; -1 when none is held. */
  ghost predicate HeldFor(votes: HeightVoteSet, round: nat, heldRound: int, block: Option<Block>,
                          parts: Option<PartSet>)
  {
    && (block == None ==> heldRound == -1 && parts == None)
    && (block.Some? ==> 0 <= heldRound <= round && Polka(votes, heldRound, IdOf(block, parts)))
  }

  /** A lock has a polka at its round; it reaches the current round only by precommitting. */
  ghost predicate LockInv(p: Params, chain: seq<BlockID>, rs: RoundState) {
    && HeldFor(rs.votes, rs.round, rs.lockedRound, rs.lockedBlock, rs.lockedParts)
    && (rs.lockedBlock.Some? ==> p.valid(chain, rs.lockedBlock.value))
    && (rs.lockedRound == rs.round ==> PRECOMMIT <= rs.step)
  }

  ghost predicate ValidBlockInv(rs: RoundState) {
    HeldFor(rs.votes, rs.round, rs.validRound, rs.validBlock, rs.validParts)
  }

  /** A commit round has a majority of precommits for a block. */
  ghost predicate CommitInv(votes: HeightVoteSet, step: nat, commitRound: int) {
    && -1 <= commitRound
    && (step == COMMIT ==> 0 <= commitRound)
    && (0 <= commitRound ==>
      && TwoThirdsMajority(votes, commitRound, Precommit).Some?
      && TwoThirdsMajority(votes, commitRound, Precommit).value.BlockID?)
  }

  /** The step that a node has reached once it has signed a vote in the current round. */
  ghost function StepAfter(kind: VoteType): nat {
    if kind == Prevote then PREVOTE else PRECOMMIT
  }

  ghost predicate SentBefore(p: Params, id: Address, v: Vote, height: nat, round: nat, step: nat) {
    && v.validator == id
    && p.initialHeight <= v.height
    && NotAfter(v.height, v.round, height, round)
    && (v.height == height && v.round == round ==> StepAfter(v.kind) <= step)
  }

  /** `v` was signed after `u`: never back in (height, round), and not the same slot again. */
  ghost predicate InOrder(u: Vote, v: Vote) {
    && NotAfter(u.height, u.round, v.height, v.round)
    && (u.height == v.height && u.round == v.round ==> u.kind != v.kind)
  }

  ghost predicate SentInv(p: Params, id: Address, sent: seq<Vote>, height: nat, round: nat, step: nat) {
    && (forall i :: 0 <= i < |sent| ==> SentBefore(p, id, sent[i], height, round, step))
    && (forall i, j :: 0 <= i < j < |sent| ==> InOrder(sent[i], sent[j]))
  }

  /** A precommitted block stays locked until a later polka for something else. */
  ghost predicate HeldOrReplaced(rs: RoundState, v: Vote) {
    v.kind == Precommit && v.blockID.BlockID? && v.height == rs.height ==>
      || (LockedID(rs) == v.blockID && v.round <= rs.lockedRound)
      || (exists r :: v.round < r <= rs.round && PolkaAgainst(rs.votes, r, v.blockID))
  }

  ghost predicate LockHistory(sent: seq<Vote>, rs: RoundState) {
    forall i :: 0 <= i < |sent| ==> HeldOrReplaced(rs, sent[i])
  }

  /** Non-nil votes name valid blocks, and precommits follow a polka of their round. */
  ghost predicate VoteGround(p: Params, chain: seq<BlockID>, log: seq<Vote>, v: Vote) {
    v.blockID.BlockID? ==>
      && ValidID(p, Below(p, chain, v.height), v.blockID)
      && (v.kind == Precommit ==>
            MajorityAfter(p, Below(p, chain, v.height), log, v.round, Prevote, v.blockID))
  }

  ghost predicate SentGrounded(p: Params, chain: seq<BlockID>, log: seq<Vote>, sent: seq<Vote>) {
    forall i :: 0 <= i < |sent| ==> VoteGround(p, chain, log, sent[i])
  }

  ghost predicate TimeoutsInv(timeouts: set<TimeoutInfo>, height: nat, round: nat) {
    forall ti :: ti in timeouts ==>
      && NotAfter(ti.height, ti.round, height, round)
      && ti.step in {NEW_HEIGHT, NEW_ROUND, PROPOSE, PREVOTE_WAIT, PRECOMMIT_WAIT}
  }

  /** The i-th finalized block is valid and has a majority of precommits in some round. */
  ghost predicate DecidedAt(p: Params, chain: seq<BlockID>, log: seq<Vote>, i: nat)
    requires i < |chain|
  {
    && ValidID(p, chain[..i], chain[i])
    && exists r :: MajorityAfter(p, chain[..i], log, r, Precommit, chain[i])
  }

  ghost predicate Decided(p: Params, chain: seq<BlockID>, log: seq<Vote>) {
    forall i :: 0 <= i < |chain| ==> DecidedAt(p, chain, log, i)
  }

  ghost predicate Inv(p: Params, n: Node, log: seq<Vote>) {
    && BasicInv(p, n)
    && Backed(n.rs.height, n.rs.votes, log)
    && BlocksInv(p, n.rs)
    && LockInv(p, n.chain, n.rs)
    && ValidBlockInv(n.rs)
    && CommitInv(n.rs.votes, n.rs.step, n.rs.commitRound)
    && SentInv(p, n.id, n.sent, n.rs.height, n.rs.round, n.rs.step)
    && LockHistory(n.sent, n.rs)
    && SentGrounded(p, n.chain, log, n.sent)
    && TimeoutsInv(n.timeouts, n.rs.height, n.rs.round)
    && Decided(p, n.chain, log)
  }

  /** A majority for a block vouches for its validity. */
  ghost predicate MajoritiesValid(p: Params, chain: seq<BlockID>, log: seq<Vote>) {
    forall r, t, b: BlockID :: b.BlockID? && MajorityAfter(p, chain, log, r, t, b) ==> ValidID(p, chain, b)
  }

  //---------------------------------------------------------------------------
  // What one step may do

  /** A new prevote against an earlier precommit is justified by a polka in between. */
  ghost predicate Justified(p: Params, chain: seq<BlockID>, log: seq<Vote>, earlier: Vote, v: Vote) {
    v.kind == Prevote && earlier.kind == Precommit && earlier.height == v.height && earlier.round < v.round &&
    earlier.blockID.BlockID? && earlier.blockID != v.blockID ==>
      exists r, c :: earlier.round < r <= v.round && c != earlier.blockID &&
        MajorityAfter(p, Below(p, chain, v.height), log, r, Prevote, c)
  }

  ghost predicate NewVotesJustified(p: Params, chain: seq<BlockID>, log: seq<Vote>, before: seq<Vote>,
                                    sent: seq<Vote>) {
    forall i, j :: 0 <= i < j < |sent| && |before| <= j ==> Justified(p, chain, log, sent[i], sent[j])
  }

  /** A lock is dropped or replaced only for a polka above its round, and its round never falls. */
  ghost predicate LockKept(rs: RoundState, rs': RoundState) {
    LockedID(rs).BlockID? ==>
      || (LockedID(rs') == LockedID(rs) && rs.lockedRound <= rs'.lockedRound)
      || (exists r :: rs.lockedRound < r <= rs'.round && PolkaAgainst(rs'.votes, r, LockedID(rs)))
  }

  ghost predicate Progress(p: Params, n: Node, n': Node, log: seq<Vote>) {
    && n'.id == n.id
    && n.sent <= n'.sent
    && n.chain <= n'.chain
    && NotAfter(n.rs.height, n.rs.round, n'.rs.height, n'.rs.round)
    && (n'.rs.height == n.rs.height ==> VotesGrow(n.rs.votes, n'.rs.votes) && LockKept(n.rs, n'.rs))
    && NewVotesJustified(p, n'.chain, log, n.sent, n'.sent)
  }

  //---------------------------------------------------------------------------
  // Composition

  lemma MajorityIsQuorum(p: Params, n: Node, log: seq<Vote>, r: int, t: VoteType, b: BlockID)
    requires BasicInv(p, n) && Backed(n.rs.height, n.rs.votes, log)
    requires TwoThirdsMajority(n.rs.votes, r, t) == Some(b)
    ensures r >= 0 && MajorityAfter(p, n.chain, log, r, t, b)
  {
    var vs := GetSet(n.rs.votes, r, t);
    assert ValidVoteSet(n.rs.validators, vs);
    var counted, logged := Voters(vs, b), VotersIn(log, n.rs.height, r, t, b);
    assert Sum(n.rs.validators.power, {}) == 0;
    var v :| v in counted;
    forall a | a in counted ensures a in logged {
      assert Vote(n.rs.height, r, t, b, a) in log;
    }
    SumMonotone(n.rs.validators.power, counted, logged);
  }

  lemma ProgressReflexive(p: Params, n: Node, log: seq<Vote>)
    ensures Progress(p, n, n, log)
  {
  }

  lemma ProgressTransitive(p: Params, a: Node, b: Node, c: Node, log: seq<Vote>)
    requires Progress(p, a, b, log) && Progress(p, b, c, log)
    requires SentInv(p, b.id, b.sent, b.rs.height, b.rs.round, b.rs.step) && BasicInv(p, b)
    ensures Progress(p, a, c, log)
  {
    forall i, j | 0 <= i < j < |c.sent| && |a.sent| <= j
      ensures Justified(p, c.chain, log, c.sent[i], c.sent[j])
    {
      if j < |b.sent| {
        assert Justified(p, b.chain, log, b.sent[i], b.sent[j]);
        assert Below(p, b.chain, b.sent[j].height) == Below(p, c.chain, b.sent[j].height);
      }
    }
    if a.rs.height == c.rs.height {
      LockKeptTransitive(a.rs, b.rs, c.rs);
    }
  }

  lemma LockKeptTransitive(a: RoundState, b: RoundState, c: RoundState)
    requires LockKept(a, b) && LockKept(b, c) && VotesGrow(b.votes, c.votes) && b.round <= c.round
    ensures LockKept(a, c)
  {
    if LockedID(a).BlockID? && !(LockedID(b) == LockedID(a) && a.lockedRound <= b.lockedRound) {
      var r :| a.lockedRound < r <= b.round && PolkaAgainst(b.votes, r, LockedID(a));
      assert PolkaAgainst(c.votes, r, LockedID(a));
    }
  }
}
