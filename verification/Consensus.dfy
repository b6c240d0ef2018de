/**
  The consensus state machine of one node: what every handler of
  consensus/state.go does to the round state, written as functions on values.
  ConsensusState.dfy holds the handlers themselves; ConsensusInvariant.dfy,
  ConsensusSteps.dfy and Agreement.dfy prove what the protocol guarantees.
*/
module Consensus {
  import opened Power
  import opened VoteSets

  // Round steps, numbered and ordered as in the implementation.
  const NEW_HEIGHT: nat := 1
  const NEW_ROUND: nat := 2
  const PROPOSE: nat := 3
  const PREVOTE: nat := 4
  const PREVOTE_WAIT: nat := 5
  const PRECOMMIT: nat := 6
  const PRECOMMIT_WAIT: nat := 7
  const COMMIT: nat := 8

  datatype Block = Block(hash: Hash, content: nat)

  /** The parts of a block received so far. */
  datatype PartSet = PartSet(header: PartSetHeader, have: set<nat>)

  /** A part together with the header of the part set its Merkle proof belongs to. */
  datatype Part = Part(index: nat, header: PartSetHeader)

  datatype Proposal = Proposal(height: nat, round: nat, polRound: int, blockID: BlockID)

  datatype TimeoutInfo = TimeoutInfo(height: nat, round: nat, step: nat)

  datatype RoundState = RoundState(
    height: nat,
    round: nat,
    step: nat,
    validators: ValidatorSet,
    proposal: Option<Proposal>,
    proposalBlock: Option<Block>,
    proposalParts: Option<PartSet>,
    lockedRound: int,
    lockedBlock: Option<Block>,
    lockedParts: Option<PartSet>,
    validRound: int,
    validBlock: Option<Block>,
    validParts: Option<PartSet>,
    votes: HeightVoteSet,
    commitRound: int,
    lastCommit: Option<VoteSet>,
    lastValidators: ValidatorSet,
    triggeredTimeoutPrecommit: bool)

  /**
    A node: its round state, the blocks it has finalized (which determine its
    application state), the votes it has signed in order, the timeouts it has
    scheduled, and whether it hit one of the implementation's panics.
  */
  datatype Node = Node(
    id: Address,
    rs: RoundState,
    chain: seq<BlockID>,
    sent: seq<Vote>,
    timeouts: set<TimeoutInfo>,
    panicked: bool)

  /**
    What all nodes share: the first height, the validator set that follows from
    the finalized blocks, block validity in the state those blocks lead to, and
    the block that the complete part set with a given header decodes to.
  */
  datatype Params = Params(
    initialHeight: nat,
    vals: seq<BlockID> -> ValidatorSet,
    valid: (seq<BlockID>, Block) -> bool,
    decode: PartSetHeader -> Option<Block>)

  /** Everything a handler asks its surroundings: configuration, application, signer. */
  datatype Oracle = Oracle(
    waitForTxs: bool,
    needProofBlock: nat -> bool,
    emptyBlocksInterval: bool,
    skipTimeoutCommit: bool,
    accepts: Block -> bool,
    signs: Vote -> bool)

  predicate IsComplete(ps: PartSet) {
    |ps.have| == ps.header.total
  }

  function NewPartSet(header: PartSetHeader): PartSet {
    PartSet(header, {})
  }

  predicate HashesTo(block: Option<Block>, b: BlockID) {
    b.BlockID? && block.Some? && block.value.hash == b.hash
  }

  predicate HasHeader(parts: Option<PartSet>, b: BlockID) {
    b.BlockID? && parts.Some? && parts.value.header == b.parts
  }

  predicate BlockMatchesBlockID(block: Option<Block>, parts: Option<PartSet>, b: BlockID) {
    HashesTo(block, b) && HasHeader(parts, b)
  }

  /** The identity of a block held together with its part set; nil when either is missing. */
  function IdOf(block: Option<Block>, parts: Option<PartSet>): BlockID {
    if block.Some? && parts.Some? then BlockID(block.value.hash, parts.value.header) else NilBlock
  }

  function LastHeight(p: Params, chain: seq<BlockID>): nat {
    if chain == [] then 0 else p.initialHeight + |chain| - 1
  }

  function Panic(n: Node): Node {
    n.(panicked := true)
  }

  function UpdateRoundStep(n: Node, round: nat, step: nat): Node {
    n.(rs := n.rs.(round := round, step := step))
  }

  function ScheduleTimeout(n: Node, height: nat, round: nat, step: nat): Node {
    n.(timeouts := n.timeouts + {TimeoutInfo(height, round, step)})
  }

  /** Signs a vote for the current height and round and sends it out. */
  function SignAddVote(o: Oracle, n: Node, kind: VoteType, b: BlockID): Node {
    var vote := Vote(n.rs.height, n.rs.round, kind, b, n.id);
    if n.id in n.rs.validators.power && o.signs(vote) then n.(sent := n.sent + [vote]) else n
  }

  predicate IsProposalComplete(rs: RoundState) {
    && rs.proposal.Some?
    && rs.proposalBlock.Some?
    && (rs.proposal.value.polRound < 0 || TwoThirdsMajority(rs.votes, rs.proposal.value.polRound, Prevote).Some?)
  }

  //---------------------------------------------------------------------------
  // Entering the steps of a round

  /** A step is entered only at the current height and never again or backwards. */
  predicate Stale(rs: RoundState, height: nat, round: nat, step: nat) {
    rs.height != height || round < rs.round || (rs.round == round && step <= rs.step)
  }

  /** Moves to the start of a round; after round 0 the previous proposal is dropped. */
  function StartRound(n: Node, round: nat): Node {
    var n1 := UpdateRoundStep(n, round, NEW_ROUND);
    var rs := if round != 0 then n1.rs.(proposal := None, proposalBlock := None, proposalParts := None) else n1.rs;
    n1.(rs := rs.(votes := SetRound(rs.votes, round + 1), triggeredTimeoutPrecommit := false))
  }

  function EnterNewRound(p: Params, o: Oracle, n: Node, height: nat, round: nat): Node {
    if n.rs.height != height || round < n.rs.round || (n.rs.round == round && n.rs.step != NEW_HEIGHT) then n else
    if n.rs.votes.round != 0 && round + 1 < n.rs.votes.round - 1 then Panic(n) else
    var n1 := StartRound(n, round);
    if o.waitForTxs && round == 0 && !o.needProofBlock(height) then
      if o.emptyBlocksInterval then ScheduleTimeout(n1, height, round, NEW_ROUND) else n1
    else
      EnterPropose(p, o, n1, height, round)
  }

  function EnterPropose(p: Params, o: Oracle, n: Node, height: nat, round: nat): Node {
    if Stale(n.rs, height, round, PROPOSE) then n else
    var n1 := UpdateRoundStep(ScheduleTimeout(n, height, round, PROPOSE), round, PROPOSE);
    if IsProposalComplete(n1.rs) then EnterPrevote(p, o, n1, height, n1.rs.round) else n1
  }

  /** What to prevote: the locked block; else the proposal block if it is valid and accepted; else nil. */
  function PrevoteChoice(p: Params, o: Oracle, n: Node): BlockID {
    var rs := n.rs;
    if rs.lockedBlock.Some? then IdOf(rs.lockedBlock, rs.lockedParts)
    else if rs.proposalBlock == None then NilBlock
    else if !p.valid(n.chain, rs.proposalBlock.value) then NilBlock
    else if !o.accepts(rs.proposalBlock.value) then NilBlock
    else IdOf(rs.proposalBlock, rs.proposalParts)
  }

  function EnterPrevote(p: Params, o: Oracle, n: Node, height: nat, round: nat): Node {
    if Stale(n.rs, height, round, PREVOTE) then n
    else UpdateRoundStep(SignAddVote(o, n, Prevote, PrevoteChoice(p, o, n)), round, PREVOTE)
  }

  function EnterPrevoteWait(n: Node, height: nat, round: nat): Node {
    if Stale(n.rs, height, round, PREVOTE_WAIT) then n
    else if !HasTwoThirdsAny(n.rs.validators, n.rs.votes, round, Prevote) then Panic(n)
    else UpdateRoundStep(ScheduleTimeout(n, height, round, PREVOTE_WAIT), round, PREVOTE_WAIT)
  }

  function Unlock(rs: RoundState): RoundState {
    rs.(lockedRound := -1, lockedBlock := None, lockedParts := None)
  }

  /**
    The round state to precommit in, and what to precommit: lock or relock on the
    block with a polka in this round, otherwise nil; none stands for a panic.
  */
  function PrecommitChoice(p: Params, n: Node, round: nat): Option<(RoundState, BlockID)> {
    var rs := n.rs;
    var polka := TwoThirdsMajority(rs.votes, round, Prevote);
    if polka == None then Some((rs, NilBlock)) else
    var b := polka.value;
    if PolRound(rs.votes, rs.votes.round) < round then None
    else if b.NilBlock? then
      Some((if rs.lockedBlock == None then rs else Unlock(rs), NilBlock))
    else if BlockMatchesBlockID(rs.lockedBlock, rs.lockedParts, b) then
      Some((rs.(lockedRound := round), b))
    else if BlockMatchesBlockID(rs.proposalBlock, rs.proposalParts, b) then
      if !p.valid(n.chain, rs.proposalBlock.value) then None else
      Some((rs.(lockedRound := round, lockedBlock := rs.proposalBlock, lockedParts := rs.proposalParts), b))
    else if HasHeader(rs.proposalParts, b) then
      Some((Unlock(rs), NilBlock))
    else
      Some((Unlock(rs).(proposalBlock := None, proposalParts := Some(NewPartSet(b.parts))), NilBlock))
  }

  function EnterPrecommit(p: Params, o: Oracle, n: Node, height: nat, round: nat): Node {
    if Stale(n.rs, height, round, PRECOMMIT) then n else
    match PrecommitChoice(p, n, round)
    case None => Panic(n)
    case Some((rs, b)) => UpdateRoundStep(SignAddVote(o, n.(rs := rs), Precommit, b), round, PRECOMMIT)
  }

  function EnterPrecommitWait(n: Node, height: nat, round: nat): Node {
    if n.rs.height != height || round < n.rs.round || (n.rs.round == round && n.rs.triggeredTimeoutPrecommit) then n
    else if !HasTwoThirdsAny(n.rs.validators, n.rs.votes, round, Precommit) then Panic(n)
    else
      var n1 := ScheduleTimeout(n, height, round, PRECOMMIT_WAIT);
      UpdateRoundStep(n1.(rs := n1.rs.(triggeredTimeoutPrecommit := true)), round, PRECOMMIT_WAIT)
  }

  //---------------------------------------------------------------------------
  // Committing

  /** Hold on to the committed block if we have it; otherwise set up to receive its parts. */
  function PrepareCommitBlock(rs: RoundState, b: BlockID): RoundState {
    var rs1 := if BlockMatchesBlockID(rs.lockedBlock, rs.lockedParts, b)
               then rs.(proposalBlock := rs.lockedBlock, proposalParts := rs.lockedParts) else rs;
    if BlockMatchesBlockID(rs1.proposalBlock, rs1.proposalParts, b) then rs1
    else
      var rs2 := rs1.(proposalBlock := None);
      if HasHeader(rs2.proposalParts, b) || b.NilBlock? then rs2
      else rs2.(proposalParts := Some(NewPartSet(b.parts)))
  }

  function EnterCommit(p: Params, n: Node, height: nat, commitRound: nat): Node {
    if n.rs.height != height || COMMIT <= n.rs.step then n else
    match TwoThirdsMajority(n.rs.votes, commitRound, Precommit)
    case None => Panic(n)
    case Some(b) =>
      var rs := PrepareCommitBlock(n.rs, b).(step := COMMIT, commitRound := commitRound);
      TryFinalizeCommit(p, n.(rs := rs), height)
  }

  function TryFinalizeCommit(p: Params, n: Node, height: nat): Node {
    if n.rs.height != height then Panic(n) else
    match TwoThirdsMajority(n.rs.votes, n.rs.commitRound, Precommit)
    case None => n
    case Some(b) =>
      if b.NilBlock? || !HashesTo(n.rs.proposalBlock, b) then n
      else if !HasHeader(n.rs.proposalParts, b) || !IsComplete(n.rs.proposalParts.value) then n
      else FinalizeCommit(p, n, height)
  }

  function FinalizeCommit(p: Params, n: Node, height: nat): Node {
    if n.rs.height != height || n.rs.step != COMMIT then n else
    match TwoThirdsMajority(n.rs.votes, n.rs.commitRound, Precommit)
    case None => Panic(n)
    case Some(b) =>
      if !HasHeader(n.rs.proposalParts, b) || !HashesTo(n.rs.proposalBlock, b) then Panic(n)
      else if !p.valid(n.chain, n.rs.proposalBlock.value) then Panic(n)
      else
        var n1 := UpdateToState(p, n, n.chain + [IdOf(n.rs.proposalBlock, n.rs.proposalParts)]);
        if n1.panicked then n1 else ScheduleTimeout(n1, n1.rs.height, 0, NEW_HEIGHT)
  }

  /** Moves to the height after the newly finalized block and resets the round state. */
  function UpdateToState(p: Params, n: Node, chain: seq<BlockID>): Node {
    var rs := n.rs;
    if rs.commitRound > -1 && 0 < rs.height && rs.height != LastHeight(p, chain) then Panic(n)
    else if LastHeight(p, n.chain) > 0 && LastHeight(p, n.chain) + 1 != rs.height then Panic(n)
    else if LastHeight(p, n.chain) > 0 && rs.height == p.initialHeight then Panic(n)
    else if LastHeight(p, chain) <= LastHeight(p, n.chain) then n
    else if rs.commitRound > -1 && TwoThirdsMajority(rs.votes, rs.commitRound, Precommit) == None then Panic(n)
    else if rs.commitRound <= -1 && rs.lastCommit == None then Panic(n)
    else
      var lastCommit := if rs.commitRound > -1 then Some(GetSet(rs.votes, rs.commitRound, Precommit))
        else rs.lastCommit;
      n.(chain := chain, rs := NewRoundState(p, chain, lastCommit, rs.validators))
  }

  function NewRoundState(p: Params, chain: seq<BlockID>, lastCommit: Option<VoteSet>,
                         lastVals: ValidatorSet): RoundState
  {
    RoundState(
      p.initialHeight + |chain|, 0, NEW_HEIGHT, p.vals(chain),
      None, None, None, -1, None, None, -1, None, None,
      NewHeightVoteSet(), -1, lastCommit, lastVals, false)
  }

  //---------------------------------------------------------------------------
  // Proposals and block parts

  /** `accepted` stands for the proposer's signature and the bound on the number of parts. */
  function SetProposal(n: Node, proposal: Proposal, accepted: bool): Node {
    if n.rs.proposal.Some? then n
    else if proposal.height != n.rs.height || proposal.round != n.rs.round then n
    else if proposal.polRound < -1 || (proposal.polRound >= 0 && proposal.polRound >= proposal.round) then n
    else if !accepted || proposal.blockID.NilBlock? then n
    else
      n.(rs := n.rs.(proposal := Some(proposal),
                     proposalParts := if n.rs.proposalParts == None then Some(NewPartSet(proposal.blockID.parts))
                                      else n.rs.proposalParts))
  }

  /** Adds a part whose proof fits the part set; the flag says whether it is new. */
  function AddPart(ps: PartSet, part: Part): (r: (PartSet, bool)) {
    if part.index in ps.have || part.header != ps.header || part.index >= ps.header.total then (ps, false)
    else (ps.(have := ps.have + {part.index}), true)
  }

  function AddProposalBlockPart(p: Params, n: Node, height: nat, part: Part, oversize: bool): (r: (Node, bool)) {
    if n.rs.height != height || n.rs.proposalParts == None then (n, false) else
    var (ps, added) := AddPart(n.rs.proposalParts.value, part);
    var n1 := n.(rs := n.rs.(proposalParts := Some(ps)));
    if added && !oversize && IsComplete(ps) && p.decode(ps.header).Some? then
      (n1.(rs := n1.rs.(proposalBlock := p.decode(ps.header))), true)
    else
      (n1, added)
  }

  /** A completed proposal that already has a polka becomes the valid block. */
  function NoteValidBlock(n: Node): Node {
    var rs := n.rs;
    var polka := TwoThirdsMajority(rs.votes, rs.round, Prevote);
    if polka.Some? && polka.value.BlockID? && rs.validRound < rs.round &&
       BlockMatchesBlockID(rs.proposalBlock, rs.proposalParts, polka.value)
    then n.(rs := rs.(validRound := rs.round, validBlock := rs.proposalBlock, validParts := rs.proposalParts))
    else n
  }

  /** What a complete block leads to, once the valid block is noted. */
  function ReactToBlock(p: Params, o: Oracle, n: Node, height: nat): Node {
    if n.rs.step <= PROPOSE && IsProposalComplete(n.rs) then
      var n1 := EnterPrevote(p, o, n, height, n.rs.round);
      if TwoThirdsMajority(n.rs.votes, n.rs.round, Prevote).Some?
      then EnterPrecommit(p, o, n1, height, n1.rs.round) else n1
    else if n.rs.step == COMMIT then TryFinalizeCommit(p, n, height)
    else n
  }

  function HandleCompleteProposal(p: Params, o: Oracle, n: Node, height: nat): Node {
    ReactToBlock(p, o, NoteValidBlock(n), height)
  }

  //---------------------------------------------------------------------------
  // Votes

  /** A polka at a round in (lockedRound, round] for something else drops the lock. */
  function UnlockOnPolka(rs: RoundState, round: nat, b: BlockID): RoundState {
    if rs.lockedBlock.Some? && rs.lockedRound < round && round <= rs.round &&
       !BlockMatchesBlockID(rs.lockedBlock, rs.lockedParts, b)
    then Unlock(rs) else rs
  }

  /** A polka for a block in the current round becomes the valid block, if we hold it. */
  function UpdateValidBlock(rs: RoundState, round: nat, b: BlockID): RoundState {
    if b.NilBlock? || rs.validRound >= round || round != rs.round then rs else
    var rs1 :=
      if BlockMatchesBlockID(rs.proposalBlock, rs.proposalParts, b)
      then rs.(validRound := round, validBlock := rs.proposalBlock, validParts := rs.proposalParts)
      else rs.(proposalBlock := None);
    if HasHeader(rs.proposalParts, b) then rs1 else rs1.(proposalParts := Some(NewPartSet(b.parts)))
  }

  /** What a counted prevote of a round leads to, once a polka is noted. */
  function ReactToPrevote(p: Params, o: Oracle, n: Node, round: nat): Node {
    var polka := TwoThirdsMajority(n.rs.votes, round, Prevote);
    var any := HasTwoThirdsAny(n.rs.validators, n.rs.votes, round, Prevote);
    if n.rs.round < round && any then
      EnterNewRound(p, o, n, n.rs.height, round)
    else if n.rs.round == round && PREVOTE <= n.rs.step then
      if polka.Some? && (IsProposalComplete(n.rs) || polka.value.NilBlock?)
      then EnterPrecommit(p, o, n, n.rs.height, round)
      else if any then EnterPrevoteWait(n, n.rs.height, round)
      else n
    else if n.rs.proposal.Some? && 0 <= n.rs.proposal.value.polRound == round && IsProposalComplete(n.rs) then
      EnterPrevote(p, o, n, n.rs.height, n.rs.round)
    else n
  }

  function AfterPrevote(p: Params, o: Oracle, n: Node, vote: Vote): Node {
    var polka := TwoThirdsMajority(n.rs.votes, vote.round, Prevote);
    var n1 := if polka.Some?
              then n.(rs := UpdateValidBlock(UnlockOnPolka(n.rs, vote.round, polka.value), vote.round, polka.value))
              else n;
    ReactToPrevote(p, o, n1, vote.round)
  }

  function AfterPrecommit(p: Params, o: Oracle, n: Node, vote: Vote): Node {
    var height := n.rs.height;
    var maj := TwoThirdsMajority(n.rs.votes, vote.round, Precommit);
    if maj.Some? then
      var all := HasAll(n.rs.validators, GetSet(n.rs.votes, vote.round, Precommit));
      var n1 := EnterNewRound(p, o, n, height, vote.round);
      var n2 := EnterPrecommit(p, o, n1, height, vote.round);
      if maj.value.BlockID? then
        var n3 := EnterCommit(p, n2, height, vote.round);
        if o.skipTimeoutCommit && all then EnterNewRound(p, o, n3, n3.rs.height, 0) else n3
      else EnterPrecommitWait(n2, height, vote.round)
    else if n.rs.round <= vote.round && HasTwoThirdsAny(n.rs.validators, n.rs.votes, vote.round, Precommit) then
      EnterPrecommitWait(EnterNewRound(p, o, n, height, vote.round), height, vote.round)
    else n
  }

  /** A late precommit for the previous height. */
  function AddLastCommitVote(p: Params, o: Oracle, n: Node, vote: Vote): Node {
    if n.rs.step != NEW_HEIGHT || n.rs.lastCommit == None || n.rs.lastCommit.value.round != vote.round then n else
    var (vs, added) := AddToSet(n.rs.lastValidators, n.rs.lastCommit.value, vote.validator, vote.blockID);
    var n1 := n.(rs := n.rs.(lastCommit := Some(vs)));
    if added && o.skipTimeoutCommit && HasAll(n.rs.lastValidators, vs)
    then EnterNewRound(p, o, n1, n1.rs.height, 0) else n1
  }

  function AddVote(p: Params, o: Oracle, n: Node, vote: Vote, peer: Peer): Node {
    if vote.height + 1 == n.rs.height && vote.kind == Precommit then AddLastCommitVote(p, o, n, vote)
    else if vote.height != n.rs.height then n
    else
      var (votes, added) := AddToHeight(n.rs.validators, n.rs.votes, vote, peer);
      var n1 := n.(rs := n.rs.(votes := votes));
      if !added then n1
      else if vote.kind == Prevote then AfterPrevote(p, o, n1, vote)
      else AfterPrecommit(p, o, n1, vote)
  }

  //---------------------------------------------------------------------------
  // Events

  function HandleTimeout(p: Params, o: Oracle, n: Node, ti: TimeoutInfo): Node {
    var rs := n.rs;
    if ti.height != rs.height || ti.round < rs.round || (ti.round == rs.round && ti.step < rs.step) then n
    else if ti.step == NEW_HEIGHT then EnterNewRound(p, o, n, ti.height, 0)
    else if ti.step == NEW_ROUND then EnterPropose(p, o, n, ti.height, ti.round)
    else if ti.step == PROPOSE then EnterPrevote(p, o, n, ti.height, ti.round)
    else if ti.step == PREVOTE_WAIT then EnterPrecommit(p, o, n, ti.height, ti.round)
    else if ti.step == PRECOMMIT_WAIT then
      EnterNewRound(p, o, EnterPrecommit(p, o, n, ti.height, ti.round), ti.height, ti.round + 1)
    else Panic(n)
  }

  function HandleTxsAvailable(p: Params, o: Oracle, n: Node): Node {
    if n.rs.round != 0 then n
    else if n.rs.step == NEW_HEIGHT then
      if o.needProofBlock(n.rs.height) then n else ScheduleTimeout(n, n.rs.height, 0, NEW_ROUND)
    else if n.rs.step == NEW_ROUND then EnterPropose(p, o, n, n.rs.height, 0)
    else n
  }

  function HandleBlockPart(p: Params, o: Oracle, n: Node, height: nat, part: Part, oversize: bool): Node {
    var (n1, added) := AddProposalBlockPart(p, n, height, part, oversize);
    if added && n1.rs.proposalParts.Some? && IsComplete(n1.rs.proposalParts.value)
    then HandleCompleteProposal(p, o, n1, height) else n1
  }

  datatype Event =
    | Timeout(ti: TimeoutInfo)
    | TxsAvailable
    | ProposalMessage(proposal: Proposal, accepted: bool)
    | BlockPartMessage(height: nat, part: Part, oversize: bool)
    | VoteMessage(vote: Vote, peer: Peer)
    | PeerMaj23(round: nat, kind: VoteType, from: Peer, blockID: BlockID)

  /** One turn of the receive routine. */
  function Handle(p: Params, o: Oracle, n: Node, e: Event): Node {
    match e
    case Timeout(ti) => HandleTimeout(p, o, n, ti)
    case TxsAvailable => HandleTxsAvailable(p, o, n)
    case ProposalMessage(proposal, accepted) => SetProposal(n, proposal, accepted)
    case BlockPartMessage(height, part, oversize) => HandleBlockPart(p, o, n, height, part, oversize)
    case VoteMessage(vote, peer) => AddVote(p, o, n, vote, peer)
    case PeerMaj23(round, kind, from, b) =>
      n.(rs := n.rs.(votes := SetPeerMaj23InHeight(n.rs.votes, round, kind, from, b)))
  }

  function InitNode(p: Params, id: Address): Node {
    Node(id, NewRoundState(p, [], None, p.vals([])), [], [], {TimeoutInfo(p.initialHeight, 0, NEW_HEIGHT)}, false)
  }
}
