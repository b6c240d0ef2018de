/**
  A round in which all goes well decides: when a valid proposal arrives with its parts, and then
  prevotes and precommits of more than two thirds of the power, the node prevotes, locks,
  precommits and finalizes the block, whatever round it is in (consensus/state.go).
*/
module ConsensusProgress {
  import opened Power
  import opened VoteSets
  import opened VoteCounting
  import opened Consensus
  import opened ConsensusInvariant
  import opened ConsensusSteps
  import opened ConsensusDuties

  function HandleAll(p: Params, o: Oracle, n: Node, es: seq<Event>): Node
    decreases |es|
  {
    if es == [] then n else HandleAll(p, o, Handle(p, o, n, es[0]), es[1..])
  }

  lemma {:induction false} HandleMore(p: Params, o: Oracle, n: Node, a: seq<Event>, b: seq<Event>)
    ensures HandleAll(p, o, n, a + b) == HandleAll(p, o, HandleAll(p, o, n, a), b)
    decreases |a|
  {
    hide Handle;
    if a == [] {
      assert a + b == b;
    } else {
      assert (a + b)[1..] == a[1..] + b;
      HandleMore(p, o, Handle(p, o, n, a[0]), a[1..], b);
    }
  }

  //---------------------------------------------------------------------------
  // Collecting votes for one block

  /** Exactly these validators have voted in the round, all for one block. */
  ghost predicate Collected(vals: ValidatorSet, hvs: HeightVoteSet, r: nat, t: VoteType, b: BlockID, s: set<Address>) {
    var vs := GetSet(hvs, r, t);
    && r in hvs.sets && vs.votes.Keys == s && Voters(vs, b) == s && vs.sum == Sum(vals.power, s)
    && vs.maj23 == if IsQuorum(vals, s) then Some(b) else None
  }

  lemma CollectNone(vals: ValidatorSet, hvs: HeightVoteSet, r: nat, t: VoteType, b: BlockID)
    requires ValidHeightVotes(vals, hvs) && r in hvs.sets && GetSet(hvs, r, t).votes == map[]
    ensures Collected(vals, hvs, r, t, b, {}) && !IsQuorum(vals, {})
  {
    assert ValidVoteSet(vals, GetSet(hvs, r, t));
    assert Sum(vals.power, {}) == 0;
  }

  lemma CollectOne(vals: ValidatorSet, hvs: HeightVoteSet, v: Vote, peer: Peer, s: set<Address>)
    requires ValidHeightVotes(vals, hvs) && Collected(vals, hvs, v.round, v.kind, v.blockID, s) && !IsQuorum(vals, s)
    requires v.validator in vals.power && v.validator !in s
    ensures var (r, added) := AddToHeight(vals, hvs, v, peer);
      && added && Collected(vals, r, v.round, v.kind, v.blockID, s + {v.validator})
      && r.round == hvs.round && (forall q :: q in hvs.sets ==> q in r.sets)
      && forall q, t :: (q, t) != (v.round, v.kind) ==> GetSet(r, q, t) == GetSet(hvs, q, t)
  {
    var vs, a, b := GetSet(hvs, v.round, v.kind), v.validator, v.blockID;
    assert ValidVoteSet(vals, vs);
    hide ValidVoteSet, ValidHeightVotes;
    FirstVoteStands(vals, vs, a, b);
    MajorityExactly(vals, vs, a, b);
    AddToSetVoters(vals, vs, a, b, b);
    SumAdd(vals.power, s, a);
    hide AddToSet, Sum, Voters, IsQuorum;
    AddToHeightSets(vals, hvs, v, peer);
    AddedToHeightTracks(vals, hvs, v, peer);
  }

  lemma AddedToHeightTracks(vals: ValidatorSet, hvs: HeightVoteSet, v: Vote, peer: Peer)
    requires v.round in hvs.sets
    ensures var (r, added) := AddToHeight(vals, hvs, v, peer);
      && added == AddToSet(vals, GetSet(hvs, v.round, v.kind), v.validator, v.blockID).1
      && GetSet(r, v.round, v.kind) == AddToSet(vals, GetSet(hvs, v.round, v.kind), v.validator, v.blockID).0
      && (forall q :: q in hvs.sets ==> q in r.sets)
      && forall q, t :: (q, t) != (v.round, v.kind) ==> GetSet(r, q, t) == GetSet(hvs, q, t)
  {
    hide AddToSet;
  }

  //---------------------------------------------------------------------------
  // The proposal and its parts

  /** A node at the propose step of a round in which nothing has happened yet, and no lock from before. */
  ghost predicate Waiting(n: Node) {
    && n.rs.step == PROPOSE && n.rs.proposal == None && n.rs.proposalBlock == None && n.rs.proposalParts == None
    && Unlocked(n.rs) && n.rs.round in n.rs.votes.sets
    && GetSet(n.rs.votes, n.rs.round, Prevote).votes == map[]
    && GetSet(n.rs.votes, n.rs.round, Precommit).votes == map[]
  }

  /** The same node with the proposal and some of its parts. */
  ghost function Receiving(n: Node, b: BlockID, have: set<nat>): Node
    requires b.BlockID?
  {
    n.(rs := n.rs.(proposal := Some(Proposal(n.rs.height, n.rs.round, -1, b)),
                   proposalParts := Some(PartSet(b.parts, have))))
  }

  /** And once it has them all. */
  ghost function Complete(p: Params, n: Node, b: BlockID, have: set<nat>): Node
    requires b.BlockID?
  {
    var m := Receiving(n, b, have);
    m.(rs := m.rs.(proposalBlock := p.decode(b.parts)))
  }

  function ProposalEvent(n: Node, b: BlockID): Event {
    ProposalMessage(Proposal(n.rs.height, n.rs.round, -1, b), true)
  }

  function PartEvents(height: nat, b: BlockID, order: seq<nat>): (es: seq<Event>)
    requires b.BlockID?
    ensures |es| == |order|
  {
    seq(|order|, i requires 0 <= i < |order| => BlockPartMessage(height, Part(order[i], b.parts), false))
  }

  lemma ProposalTaken(p: Params, o: Oracle, n: Node, b: BlockID)
    requires Waiting(n) && b.BlockID?
    ensures Handle(p, o, n, ProposalEvent(n, b)) == Receiving(n, b, {})
  {
  }

  lemma PartTaken(p: Params, o: Oracle, n: Node, b: BlockID, have: set<nat>, i: nat)
    requires Waiting(n) && b.BlockID? && i !in have && i < b.parts.total
    requires p.decode(b.parts).Some? && TwoThirdsMajority(n.rs.votes, n.rs.round, Prevote) == None
    ensures var m := Handle(p, o, Receiving(n, b, have), BlockPartMessage(n.rs.height, Part(i, b.parts), false));
      var all := Complete(p, n, b, have + {i});
      m == if |have| + 1 == b.parts.total then EnterPrevote(p, o, all, n.rs.height, n.rs.round)
           else Receiving(n, b, have + {i})
  {
    hide EnterPrevote, EnterPrecommit, TwoThirdsMajority, TryFinalizeCommit;
    assert |have + {i}| == |have| + 1;
  }

  ghost predicate Permutes(order: seq<nat>, have: set<nat>, total: nat) {
    && (forall i :: 0 <= i < |order| ==> order[i] < total && order[i] !in have)
    && (forall i, j :: 0 <= i < j < |order| ==> order[i] != order[j])
    && |have| + |order| == total
  }

  /** In whatever order the missing parts come, the last one makes the node prevote. */
  lemma {:induction false} PartsTaken(p: Params, o: Oracle, n: Node, log: seq<Vote>, b: BlockID, have: set<nat>,
                                      order: seq<nat>)
    returns (all: Node)
    requires Waiting(n) && b.BlockID? && order != [] && Permutes(order, have, b.parts.total)
    requires Inv(p, Receiving(n, b, have), log) && MajoritiesValid(p, n.chain, log)
    requires p.decode(b.parts).Some? && TwoThirdsMajority(n.rs.votes, n.rs.round, Prevote) == None
    ensures exists full :: |full| == b.parts.total && all == Complete(p, n, b, full)
    ensures HandleAll(p, o, Receiving(n, b, have), PartEvents(n.rs.height, b, order)) ==
      EnterPrevote(p, o, all, n.rs.height, n.rs.round)
    ensures Inv(p, EnterPrevote(p, o, all, n.rs.height, n.rs.round), log)
    decreases |order|
  {
    hide Inv, MajoritiesValid, Progress, Handle, EnterPrevote, TwoThirdsMajority, Waiting;
    var es, rest := PartEvents(n.rs.height, b, order), order[1..];
    PartTaken(p, o, n, b, have, order[0]);
    HandleStep(p, o, Receiving(n, b, have), es[0], log);
    assert es[1..] == PartEvents(n.rs.height, b, rest);
    assert |have + {order[0]}| == |have| + 1;
    if |order| == 1 {
      all := Complete(p, n, b, have + {order[0]});
      assert es[1..] == [];
    } else {
      assert forall i :: 0 <= i < |rest| ==> rest[i] == order[i + 1];
      all := PartsTaken(p, o, n, log, b, have + {order[0]}, rest);
    }
  }

  //---------------------------------------------------------------------------
  // Prevotes and precommits

  /** The node has prevoted for the block it holds and collects prevotes for it. */
  ghost predicate Prevoting(p: Params, n: Node, log: seq<Vote>, b: BlockID, s: set<Address>) {
    && Inv(p, n, log) && MajoritiesValid(p, n.chain, log) && b.BlockID?
    && n.rs.step == PREVOTE && Held(n.rs) == b && Unlocked(n.rs)
    && n.rs.proposal.Some? && n.rs.proposal.value.polRound < 0
    && Collected(n.rs.validators, n.rs.votes, n.rs.round, Prevote, b, s) && !IsQuorum(n.rs.validators, s)
    && Collected(n.rs.validators, n.rs.votes, n.rs.round, Precommit, b, {})
  }

  /** The node is locked on the block, has precommitted, and collects precommits for it. */
  ghost predicate Precommitting(p: Params, n: Node, log: seq<Vote>, b: BlockID, s: set<Address>) {
    && Inv(p, n, log) && MajoritiesValid(p, n.chain, log) && b.BlockID?
    && n.rs.step == PRECOMMIT && LockedID(n.rs) == b
    && Collected(n.rs.validators, n.rs.votes, n.rs.round, Precommit, b, s) && !IsQuorum(n.rs.validators, s)
  }

  /** Still the same height and round of the same node. */
  ghost predicate SameRound(n: Node, m: Node) {
    && m.id == n.id && m.chain == n.chain
    && m.rs.height == n.rs.height && m.rs.round == n.rs.round && m.rs.validators == n.rs.validators
  }

  function VoteOf(n: Node, kind: VoteType, b: BlockID, a: Address): Vote {
    Vote(n.rs.height, n.rs.round, kind, b, a)
  }

  function VoteEvents(n: Node, kind: VoteType, b: BlockID, voters: seq<Address>, peer: Peer): (es: seq<Event>)
    ensures |es| == |voters|
  {
    seq(|voters|, i requires 0 <= i < |voters| => VoteMessage(VoteOf(n, kind, b, voters[i]), peer))
  }

  ghost predicate VotesLogged(n: Node, kind: VoteType, b: BlockID, voters: seq<Address>, log: seq<Vote>) {
    forall i :: 0 <= i < |voters| ==> VoteOf(n, kind, b, voters[i]) in log
  }

  /** These validators, in addition to some that have voted, just make a quorum with the last of them. */
  ghost predicate JustQuorum(vals: ValidatorSet, voters: seq<Address>, s: set<Address>)
    decreases |voters|
  {
    && voters != [] && voters[0] in vals.power && voters[0] !in s
    && if |voters| == 1 then IsQuorum(vals, s + {voters[0]})
       else !IsQuorum(vals, s + {voters[0]}) && JustQuorum(vals, voters[1..], s + {voters[0]})
  }

  lemma NotYetAny(n: Node, t: VoteType, b: BlockID, s: set<Address>)
    requires Collected(n.rs.validators, n.rs.votes, n.rs.round, t, b, s)
    ensures HasTwoThirdsAny(n.rs.validators, n.rs.votes, n.rs.round, t) <==> IsQuorum(n.rs.validators, s)
    ensures TwoThirdsMajority(n.rs.votes, n.rs.round, t) == if IsQuorum(n.rs.validators, s) then Some(b) else None
  {
  }

  ghost function WithVote(n: Node, v: Vote, peer: Peer): Node {
    n.(rs := n.rs.(votes := AddToHeight(n.rs.validators, n.rs.votes, v, peer).0))
  }

  lemma CountVote(p: Params, n: Node, log: seq<Vote>, kind: VoteType, b: BlockID, a: Address, peer: Peer,
                  s: set<Address>)
    requires Inv(p, n, log) && Collected(n.rs.validators, n.rs.votes, n.rs.round, kind, b, s)
    requires !IsQuorum(n.rs.validators, s) && a in n.rs.validators.power && a !in s && VoteOf(n, kind, b, a) in log
    ensures var m := WithVote(n, VoteOf(n, kind, b, a), peer);
      && AddToHeight(n.rs.validators, n.rs.votes, VoteOf(n, kind, b, a), peer).1 && Inv(p, m, log)
      && Collected(n.rs.validators, m.rs.votes, n.rs.round, kind, b, s + {a})
      && (forall t, c, u :: t != kind && Collected(n.rs.validators, n.rs.votes, n.rs.round, t, c, u) ==>
            Collected(n.rs.validators, m.rs.votes, n.rs.round, t, c, u))
  {
    VotesValid(p, n, log);
    CollectOne(n.rs.validators, n.rs.votes, VoteOf(n, kind, b, a), peer, s);
    hide Inv, AddToHeight, Progress;
    CollectVote(p, n, VoteOf(n, kind, b, a), peer, log);
  }

  lemma VotesValid(p: Params, n: Node, log: seq<Vote>)
    requires Inv(p, n, log)
    ensures ValidHeightVotes(n.rs.validators, n.rs.votes)
  {
  }

  /** A prevote that does not make the quorum is counted, and no more. */
  lemma PrevoteBelow(p: Params, o: Oracle, n: Node, log: seq<Vote>, b: BlockID, a: Address, peer: Peer, s: set<Address>)
    requires Prevoting(p, n, log, b, s) && a in n.rs.validators.power && a !in s && VoteOf(n, Prevote, b, a) in log
    requires !IsQuorum(n.rs.validators, s + {a})
    ensures var m := Handle(p, o, n, VoteMessage(VoteOf(n, Prevote, b, a), peer));
      Prevoting(p, m, log, b, s + {a}) && SameRound(n, m) && m.sent == n.sent
  {
    hide Inv, AddToHeight, Collected, IsQuorum, MajoritiesValid;
    CountVote(p, n, log, Prevote, b, a, peer, s);
    var m := WithVote(n, VoteOf(n, Prevote, b, a), peer);
    NotYetAny(m, Prevote, b, s + {a});
    hide HasTwoThirdsAny, TwoThirdsMajority, EnterNewRound, EnterPrecommit, EnterPrevoteWait, EnterPrevote;
  }

  ghost function Noted(n: Node, b: BlockID): Node
    requires b.BlockID?
  {
    n.(rs := UpdateValidBlock(UnlockOnPolka(n.rs, n.rs.round, b), n.rs.round, b))
  }

  /** Noting the polka for the block that is held keeps the block and the step, and there is no lock to drop. */
  lemma NotedFields(n: Node, b: BlockID)
    requires b.BlockID? && Held(n.rs) == b && Unlocked(n.rs)
    ensures var rs := Noted(n, b).rs;
      && rs == n.rs.(validRound := rs.validRound, validBlock := rs.validBlock, validParts := rs.validParts)
      && rs.validRound >= n.rs.round
  {
  }

  /** A polka for the block that is held leads to the precommit step. */
  lemma PolkaPrecommits(p: Params, o: Oracle, n: Node, v: Vote, b: BlockID)
    requires b.BlockID? && n.rs.step == PREVOTE && Held(n.rs) == b && Unlocked(n.rs) && v.round == n.rs.round
    requires n.rs.proposal.Some? && n.rs.proposal.value.polRound < 0
    requires TwoThirdsMajority(n.rs.votes, n.rs.round, Prevote) == Some(b)
    ensures AfterPrevote(p, o, n, v) == EnterPrecommit(p, o, Noted(n, b), n.rs.height, n.rs.round)
  {
    NotedFields(n, b);
    hide UpdateValidBlock, UnlockOnPolka, EnterPrecommit, EnterNewRound, EnterPrevoteWait, EnterPrevote;
    hide HasTwoThirdsAny, TwoThirdsMajority;
  }

  /** The one that makes the quorum locks the block and is answered by a precommit for it. */
  lemma PrevoteAt(p: Params, o: Oracle, n: Node, log: seq<Vote>, b: BlockID, a: Address, peer: Peer, s: set<Address>)
    requires Prevoting(p, n, log, b, s) && a in n.rs.validators.power && a !in s && VoteOf(n, Prevote, b, a) in log
    requires IsQuorum(n.rs.validators, s + {a})
    ensures var m := Handle(p, o, n, VoteMessage(VoteOf(n, Prevote, b, a), peer));
      Precommitting(p, m, log, b, {}) && SameRound(n, m) && ConsensusDuties.Casts(o, n, m, Precommit, b)
  {
    hide Inv, AddToHeight, Collected, IsQuorum, MajoritiesValid, TwoThirdsMajority, Progress;
    hide AfterPrevote, UpdateValidBlock, UnlockOnPolka, EnterPrecommit, HasTwoThirdsAny, SameLock;
    var v := VoteOf(n, Prevote, b, a);
    var n1 := WithVote(n, v, peer);
    var n2 := Noted(n1, b);
    CountVote(p, n, log, Prevote, b, a, peer, s);
    NotYetAny(n1, Prevote, b, s + {a});
    PolkaPrecommits(p, o, n1, v, b);
    EmptyNoQuorum(n.rs.validators);
    ConsensusSteps.NotePolka(p, n1, v.round, b, log);
    NotedFields(n1, b);
    PrecommitDone(p, o, n2, log);
    EnterPrecommitStep(p, o, n2, n2.rs.height, n2.rs.round, log);
    PrecommitKeepsValidators(p, o, n2);
    assert Handle(p, o, n, VoteMessage(v, peer)) == EnterPrecommit(p, o, n2, n2.rs.height, n2.rs.round);
  }

  lemma EmptyNoQuorum(vals: ValidatorSet)
    ensures !IsQuorum(vals, {})
  {
    assert Sum(vals.power, {}) == 0;
  }

  lemma PrecommitKeepsValidators(p: Params, o: Oracle, n: Node)
    ensures var m := EnterPrecommit(p, o, n, n.rs.height, n.rs.round);
      m.rs.validators == n.rs.validators && m.id == n.id
  {
  }

  /** A precommit that does not make the quorum is counted, and no more. */
  lemma PrecommitBelow(p: Params, o: Oracle, n: Node, log: seq<Vote>, b: BlockID, a: Address, peer: Peer,
                       s: set<Address>)
    requires Precommitting(p, n, log, b, s) && a in n.rs.validators.power && a !in s
    requires VoteOf(n, Precommit, b, a) in log && !IsQuorum(n.rs.validators, s + {a})
    ensures var m := Handle(p, o, n, VoteMessage(VoteOf(n, Precommit, b, a), peer));
      Precommitting(p, m, log, b, s + {a}) && SameRound(n, m) && m.sent == n.sent
  {
    hide Inv, AddToHeight, Collected, IsQuorum, MajoritiesValid;
    CountVote(p, n, log, Precommit, b, a, peer, s);
    var m := WithVote(n, VoteOf(n, Precommit, b, a), peer);
    NotYetAny(m, Precommit, b, s + {a});
    hide HasTwoThirdsAny, TwoThirdsMajority, EnterNewRound, EnterPrecommit, EnterPrecommitWait, EnterCommit;
  }

  /** Once the node has precommitted, its round and its precommit step are not entered again. */
  lemma StaleHere(p: Params, o: Oracle, n: Node)
    requires n.rs.step == PRECOMMIT
    ensures EnterNewRound(p, o, n, n.rs.height, n.rs.round) == n
    ensures EnterPrecommit(p, o, n, n.rs.height, n.rs.round) == n
  {
  }

  lemma NewRoundKeepsChain(p: Params, o: Oracle, n: Node, height: nat, round: nat)
    ensures var m := EnterNewRound(p, o, n, height, round);
      m.chain == n.chain && m.rs.height == n.rs.height && n.sent <= m.sent
  {
  }

  /** A majority of precommits for a block leads to the commit step. */
  lemma MajorityCommits(p: Params, o: Oracle, n: Node, v: Vote, b: BlockID)
    requires b.BlockID? && n.rs.step == PRECOMMIT && v.round == n.rs.round
    requires TwoThirdsMajority(n.rs.votes, n.rs.round, Precommit) == Some(b)
    ensures var m := EnterCommit(p, n, n.rs.height, n.rs.round);
      || AfterPrecommit(p, o, n, v) == m
      || (o.skipTimeoutCommit && AfterPrecommit(p, o, n, v) == EnterNewRound(p, o, m, m.rs.height, 0))
  {
    StaleHere(p, o, n);
    hide EnterNewRound, EnterPrecommit, EnterCommit, HasAll, HasTwoThirdsAny, TwoThirdsMajority, GetSet;
    hide EnterPrecommitWait;
  }

  /** The one that makes the quorum decides. */
  lemma PrecommitAt(p: Params, o: Oracle, n: Node, log: seq<Vote>, b: BlockID, a: Address, peer: Peer, s: set<Address>)
    requires Precommitting(p, n, log, b, s) && a in n.rs.validators.power && a !in s
    requires VoteOf(n, Precommit, b, a) in log && IsQuorum(n.rs.validators, s + {a})
    ensures var m := Handle(p, o, n, VoteMessage(VoteOf(n, Precommit, b, a), peer));
      && m.chain == n.chain + [b] && m.rs.height == n.rs.height + 1 && !m.panicked && n.sent <= m.sent
      && (!o.skipTimeoutCommit ==> Decides(p, n, m, b))
  {
    hide Inv, AddToHeight, Collected, IsQuorum, MajoritiesValid, TwoThirdsMajority, GetSet, Progress, BlocksInv;
    hide LockInv, AfterPrecommit, EnterCommit, EnterNewRound, LockedID, Held;
    var v := VoteOf(n, Precommit, b, a);
    var n1 := WithVote(n, v, peer);
    CountVote(p, n, log, Precommit, b, a, peer, s);
    NotYetAny(n1, Precommit, b, s + {a});
    MajorityCommits(p, o, n1, v, b);
    CommitDone(p, n1, v.round, log, b);
    EnterCommitStep(p, n1, n1.rs.height, v.round, log);
    assert LockedID(n1.rs) == LockedID(n.rs) by { SameLockedID(n.rs, n1.rs); }
    var n3 := EnterCommit(p, n1, n1.rs.height, v.round);
    assert Decides(p, n, n3, b);
    EnterNewRoundStep(p, o, n3, n3.rs.height, 0, log);
    NewRoundKeepsChain(p, o, n3, n3.rs.height, 0);
    NotPanicked(p, EnterNewRound(p, o, n3, n3.rs.height, 0), log);
  }

  lemma SameLockedID(rs: RoundState, rs': RoundState)
    requires SameLock(rs, rs')
    ensures LockedID(rs') == LockedID(rs)
  {
  }

  lemma {:induction false} PrevotesTaken(p: Params, o: Oracle, n: Node, log: seq<Vote>, b: BlockID,
                                         voters: seq<Address>, peer: Peer, s: set<Address>)
    requires Prevoting(p, n, log, b, s) && JustQuorum(n.rs.validators, voters, s)
    requires VotesLogged(n, Prevote, b, voters, log)
    ensures var m := HandleAll(p, o, n, VoteEvents(n, Prevote, b, voters, peer));
      Precommitting(p, m, log, b, {}) && SameRound(n, m) && ConsensusDuties.Casts(o, n, m, Precommit, b)
    decreases |voters|
  {
    hide Handle, Prevoting, Precommitting, IsQuorum;
    var es, a, rest := VoteEvents(n, Prevote, b, voters, peer), voters[0], voters[1..];
    var m := Handle(p, o, n, es[0]);
    if |voters| == 1 {
      PrevoteAt(p, o, n, log, b, a, peer, s);
      assert es[1..] == [];
    } else {
      PrevoteBelow(p, o, n, log, b, a, peer, s);
      assert forall i :: 0 <= i < |rest| ==> rest[i] == voters[i + 1];
      assert es[1..] == VoteEvents(m, Prevote, b, rest, peer);
      PrevotesTaken(p, o, m, log, b, rest, peer, s + {a});
    }
  }

  lemma {:induction false} PrecommitsTaken(p: Params, o: Oracle, n: Node, log: seq<Vote>, b: BlockID,
                                           voters: seq<Address>, peer: Peer, s: set<Address>)
    requires Precommitting(p, n, log, b, s) && JustQuorum(n.rs.validators, voters, s)
    requires VotesLogged(n, Precommit, b, voters, log)
    ensures var m := HandleAll(p, o, n, VoteEvents(n, Precommit, b, voters, peer));
      && m.chain == n.chain + [b] && m.rs.height == n.rs.height + 1 && !m.panicked && n.sent <= m.sent
      && (!o.skipTimeoutCommit ==> m.sent == n.sent)
    decreases |voters|
  {
    hide Handle, Precommitting, IsQuorum;
    var es, a, rest := VoteEvents(n, Precommit, b, voters, peer), voters[0], voters[1..];
    var m := Handle(p, o, n, es[0]);
    if |voters| == 1 {
      PrecommitAt(p, o, n, log, b, a, peer, s);
      assert es[1..] == [];
    } else {
      PrecommitBelow(p, o, n, log, b, a, peer, s);
      assert forall i :: 0 <= i < |rest| ==> rest[i] == voters[i + 1];
      assert es[1..] == VoteEvents(m, Precommit, b, rest, peer);
      PrecommitsTaken(p, o, m, log, b, rest, peer, s + {a});
    }
  }

  //---------------------------------------------------------------------------
  // The round

  /** A complete proposal is prevoted for. */
  lemma CompletePrevotes(p: Params, o: Oracle, n: Node, log: seq<Vote>, b: BlockID, full: set<nat>)
    requires Waiting(n) && ValidHeightVotes(n.rs.validators, n.rs.votes) && MajoritiesValid(p, n.chain, log)
    requires ValidID(p, n.chain, b) && o.accepts(p.decode(b.parts).value) && |full| == b.parts.total
    requires Inv(p, EnterPrevote(p, o, Complete(p, n, b, full), n.rs.height, n.rs.round), log)
    ensures var m := EnterPrevote(p, o, Complete(p, n, b, full), n.rs.height, n.rs.round);
      Prevoting(p, m, log, b, {}) && SameRound(n, m) && ConsensusDuties.Casts(o, n, m, Prevote, b)
  {
    CollectNone(n.rs.validators, n.rs.votes, n.rs.round, Prevote, b);
    CollectNone(n.rs.validators, n.rs.votes, n.rs.round, Precommit, b);
    hide Inv, Collected, IsQuorum, MajoritiesValid, ValidHeightVotes, GetSet;
  }

  /** A valid proposal, all its parts in any order, and votes that just make a quorum, for prevotes and precommits. */
  ghost predicate GoodRound(p: Params, o: Oracle, n: Node, log: seq<Vote>, b: BlockID, order: seq<nat>,
                            prevoters: seq<Address>, precommitters: seq<Address>) {
    && ValidID(p, n.chain, b) && o.accepts(p.decode(b.parts).value)
    && order != [] && Permutes(order, {}, b.parts.total)
    && JustQuorum(n.rs.validators, prevoters, {}) && VotesLogged(n, Prevote, b, prevoters, log)
    && JustQuorum(n.rs.validators, precommitters, {}) && VotesLogged(n, Precommit, b, precommitters, log)
  }

  function Events(n: Node, b: BlockID, order: seq<nat>, prevoters: seq<Address>, precommitters: seq<Address>,
                  peer: Peer): seq<Event>
    requires b.BlockID?
  {
    [ProposalEvent(n, b)] + PartEvents(n.rs.height, b, order) + VoteEvents(n, Prevote, b, prevoters, peer)
    + VoteEvents(n, Precommit, b, precommitters, peer)
  }

  /** The node's own vote of this round, if it is a validator whose signer agrees. */
  function Own(o: Oracle, n: Node, kind: VoteType, b: BlockID): seq<Vote> {
    if n.id in n.rs.validators.power && o.signs(VoteOf(n, kind, b, n.id)) then [VoteOf(n, kind, b, n.id)] else []
  }

  /** The proposal and its parts, in any order, are answered by a prevote for the block. */
  lemma ProposalPrevoted(p: Params, o: Oracle, n: Node, log: seq<Vote>, b: BlockID, order: seq<nat>)
    requires Inv(p, n, log) && MajoritiesValid(p, n.chain, log) && Waiting(n)
    requires ValidID(p, n.chain, b) && o.accepts(p.decode(b.parts).value)
    requires order != [] && Permutes(order, {}, b.parts.total)
    ensures var m := HandleAll(p, o, n, [ProposalEvent(n, b)] + PartEvents(n.rs.height, b, order));
      Prevoting(p, m, log, b, {}) && SameRound(n, m) && ConsensusDuties.Casts(o, n, m, Prevote, b)
  {
    VotesValid(p, n, log);
    CollectNone(n.rs.validators, n.rs.votes, n.rs.round, Prevote, b);
    NotYetAny(n, Prevote, b, {});
    ProposalTaken(p, o, n, b);
    hide Inv, MajoritiesValid, Handle, EnterPrevote, Collected, Prevoting, IsQuorum, TwoThirdsMajority;
    hide ValidHeightVotes, Progress, Waiting, GetSet;
    HandleStep(p, o, n, ProposalEvent(n, b), log);
    var parts := PartEvents(n.rs.height, b, order);
    var all := PartsTaken(p, o, n, log, b, {}, order);
    var full :| |full| == b.parts.total && all == Complete(p, n, b, full);
    CompletePrevotes(p, o, n, log, b, full);
    assert ([ProposalEvent(n, b)] + parts)[1..] == parts;
  }

  lemma VotesSame(n: Node, m: Node, kind: VoteType, b: BlockID, voters: seq<Address>, peer: Peer, log: seq<Vote>)
    requires SameRound(n, m)
    ensures VoteEvents(n, kind, b, voters, peer) == VoteEvents(m, kind, b, voters, peer)
    ensures VotesLogged(n, kind, b, voters, log) ==> VotesLogged(m, kind, b, voters, log)
  {
  }

  /** In a good round, of any number, the node prevotes and precommits the block, and then decides it. */
  lemma GoodRoundDecides(p: Params, o: Oracle, n: Node, log: seq<Vote>, b: BlockID, order: seq<nat>,
                         prevoters: seq<Address>, precommitters: seq<Address>, peer: Peer)
    requires Inv(p, n, log) && MajoritiesValid(p, n.chain, log) && Waiting(n)
    requires GoodRound(p, o, n, log, b, order, prevoters, precommitters)
    ensures var m := HandleAll(p, o, n, Events(n, b, order, prevoters, precommitters, peer));
      && m.chain == n.chain + [b] && m.rs.height == n.rs.height + 1 && !m.panicked
      && n.sent + Own(o, n, Prevote, b) + Own(o, n, Precommit, b) <= m.sent
      && (!o.skipTimeoutCommit ==> m.sent == n.sent + Own(o, n, Prevote, b) + Own(o, n, Precommit, b))
  {
    hide Inv, MajoritiesValid, Handle, Prevoting, Precommitting, JustQuorum, Waiting, Permutes, HandleAll;
    hide VoteEvents, PartEvents, VotesLogged;
    var proposal := [ProposalEvent(n, b)] + PartEvents(n.rs.height, b, order);
    var prevotes := VoteEvents(n, Prevote, b, prevoters, peer);
    var precommits := VoteEvents(n, Precommit, b, precommitters, peer);
    ProposalPrevoted(p, o, n, log, b, order);
    var n2 := HandleAll(p, o, n, proposal);
    VotesSame(n, n2, Prevote, b, prevoters, peer, log);
    PrevotesTaken(p, o, n2, log, b, prevoters, peer, {});
    var n3 := HandleAll(p, o, n2, prevotes);
    VotesSame(n, n3, Precommit, b, precommitters, peer, log);
    PrecommitsTaken(p, o, n3, log, b, precommitters, peer, {});
    HandleMore(p, o, n, proposal + prevotes, precommits);
    HandleMore(p, o, n, proposal, prevotes);
  }

  //---------------------------------------------------------------------------
  // A decided block that comes late

  /** The node has seen a majority of precommits for the block, and waits for parts of it. */
  ghost predicate Committing(p: Params, n: Node, log: seq<Vote>, b: BlockID, have: set<nat>) {
    && Inv(p, n, log) && MajoritiesValid(p, n.chain, log) && ValidID(p, n.chain, b)
    && n.rs.step == COMMIT && TwoThirdsMajority(n.rs.votes, n.rs.commitRound, Precommit) == Some(b)
    && n.rs.proposalBlock == None && n.rs.proposalParts == Some(PartSet(b.parts, have))
  }

  /** The node with one more part, and with the block if that was the last one. */
  ghost function WithPart(p: Params, n: Node, b: BlockID, have: set<nat>, i: nat): Node
    requires b.BlockID?
  {
    var m := n.(rs := n.rs.(proposalParts := Some(PartSet(b.parts, have + {i}))));
    if |have| + 1 == b.parts.total then m.(rs := m.rs.(proposalBlock := p.decode(b.parts))) else m
  }

  lemma LatePart(p: Params, o: Oracle, n: Node, log: seq<Vote>, b: BlockID, have: set<nat>, i: nat)
    requires Committing(p, n, log, b, have) && i !in have && i < b.parts.total
    ensures var m := Handle(p, o, n, BlockPartMessage(n.rs.height, Part(i, b.parts), false));
      var n1 := WithPart(p, n, b, have, i);
      && Inv(p, n1, log)
      && m == if |have| + 1 == b.parts.total then TryFinalizeCommit(p, NoteValidBlock(n1), n.rs.height) else n1
  {
    hide Inv, Progress, MajoritiesValid, TwoThirdsMajority, TryFinalizeCommit, NoteValidBlock, EnterPrevote;
    hide EnterPrecommit, AddProposalBlockPart, WithPart;
    AddProposalBlockPartStep(p, n, n.rs.height, Part(i, b.parts), false, log);
    PartAdded(p, n, b, have, i);
    NoteKeepsStep(WithPart(p, n, b, have, i));
  }

  lemma PartAdded(p: Params, n: Node, b: BlockID, have: set<nat>, i: nat)
    requires b.BlockID? && p.decode(b.parts).Some? && n.rs.proposalParts == Some(PartSet(b.parts, have))
    requires i !in have && i < b.parts.total
    ensures var m := WithPart(p, n, b, have, i);
      && AddProposalBlockPart(p, n, n.rs.height, Part(i, b.parts), false) == (m, true)
      && m.rs.proposalParts.Some? && m.rs.step == n.rs.step && m.rs.height == n.rs.height
      && (IsComplete(m.rs.proposalParts.value) <==> |have| + 1 == b.parts.total)
  {
    assert |have + {i}| == |have| + 1;
  }

  lemma NoteKeepsStep(n: Node)
    ensures var m := NoteValidBlock(n);
      && m == n.(rs := m.rs) && m.rs.step == n.rs.step && m.rs.height == n.rs.height && m.rs.votes == n.rs.votes
      && m.rs.commitRound == n.rs.commitRound && m.rs.proposalBlock == n.rs.proposalBlock
      && m.rs.proposalParts == n.rs.proposalParts && m.rs.validators == n.rs.validators
  {
    hide TwoThirdsMajority, BlockMatchesBlockID;
  }

  /** In whatever order the missing parts come, the last one makes the node decide. */
  lemma {:induction false} LateBlockDecides(p: Params, o: Oracle, n: Node, log: seq<Vote>, b: BlockID, have: set<nat>,
                                            order: seq<nat>)
    requires Committing(p, n, log, b, have) && order != [] && Permutes(order, have, b.parts.total)
    ensures Decides(p, n, HandleAll(p, o, n, PartEvents(n.rs.height, b, order)), b)
    decreases |order|
  {
    hide Inv, Progress, MajoritiesValid, Handle, TwoThirdsMajority, TryFinalizeCommit, NoteValidBlock, Decides;
    var es, rest := PartEvents(n.rs.height, b, order), order[1..];
    var n1 := WithPart(p, n, b, have, order[0]);
    LatePart(p, o, n, log, b, have, order[0]);
    assert es[1..] == PartEvents(n.rs.height, b, rest);
    assert |have + {order[0]}| == |have| + 1;
    if |order| == 1 {
      assert es[1..] == [];
      NoteValidBlockStep(p, n1, log);
      NoteKeepsStep(n1);
      var n2 := NoteValidBlock(n1);
      TryFinalizeDone(p, n2, log, b);
      DecidesFrom(p, n, n2, TryFinalizeCommit(p, n2, n.rs.height), b);
    } else {
      assert forall i :: 0 <= i < |rest| ==> rest[i] == order[i + 1];
      LateBlockDecides(p, o, n1, log, b, have + {order[0]}, rest);
      DecidesFrom(p, n, n1, HandleAll(p, o, n1, es[1..]), b);
    }
  }

  lemma DecidesFrom(p: Params, n: Node, n1: Node, m: Node, b: BlockID)
    requires n1.chain == n.chain && n1.sent == n.sent && n1.rs.height == n.rs.height
    requires n1.rs.validators == n.rs.validators && Decides(p, n1, m, b)
    ensures Decides(p, n, m, b)
  {
  }
}
