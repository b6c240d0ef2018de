/**
  Which votes are counted, and that a quorum is seen: exact conditions for one vote, and what
  any sequence of votes and of peers' claims leads to (types/vote_set.go, consensus/types/height_vote_set.go).
*/
module VoteCounting {
  import opened Power
  import opened VoteSets

  /** A quorum is more than two thirds of the power, and no more than that is needed. */
  lemma QuorumIsTwoThirds(vals: ValidatorSet, s: set<Address>)
    ensures IsQuorum(vals, s) <==> 3 * Sum(vals.power, s) > 2 * vals.total
  {
  }

  lemma AnyIsTwoThirds(vals: ValidatorSet, hvs: HeightVoteSet, r: int, t: VoteType)
    ensures HasTwoThirdsAny(vals, hvs, r, t) <==> 3 * GetSet(hvs, r, t).sum > 2 * vals.total
  {
  }

  //---------------------------------------------------------------------------
  // One vote

  /** Some peer claims a majority for the block. */
  predicate Claimed(vs: VoteSet, b: BlockID) {
    b in vs.byBlock && vs.byBlock[b].peerMaj23
  }

  /**
    A vote is counted if and only if it is from a member whose vote for this block is new, and
    who has not voted before or for whose new block a peer claims a majority.
  */
  lemma AddedExactly(vals: ValidatorSet, vs: VoteSet, v: Address, b: BlockID)
    ensures AddToSet(vals, vs, v, b).1 <==>
      && v in vals.power && v !in Voters(vs, b)
      && (v in vs.votes ==> vs.votes[v] != b && Claimed(vs, b))
    ensures v !in vals.power ==> AddToSet(vals, vs, v, b).0 == vs
  {
  }

  lemma CountedHaveVotes(vals: ValidatorSet, vs: VoteSet, b: BlockID)
    requires ValidVoteSet(vals, vs)
    ensures Voters(vs, b) <= vs.votes.Keys
  {
  }

  /** Counting for a block changes votes only if this makes the majority, and then to this block. */
  lemma CountedVotes(vals: ValidatorSet, vs: VoteSet, v: Address, b: BlockID)
    requires v in vals.power && Voters(vs, b) + {v} <= vs.votes.Keys
    ensures var r := CountForBlock(vals, vs, v, b);
      && r.votes.Keys == vs.votes.Keys && r.sum == vs.sum && Voters(r, b) == Voters(vs, b) + {v}
      && forall a :: a in vs.votes ==>
           r.votes[a] == if r.maj23 == vs.maj23 then vs.votes[a] else if a in Voters(r, b) then b else vs.votes[a]
    ensures var r := CountForBlock(vals, vs, v, b); r.maj23 != vs.maj23 ==> vs.maj23 == None && r.maj23 == Some(b)
  {
  }

  /** The first vote of a member is its vote, and adds its power to the votes seen. */
  lemma FirstVoteStands(vals: ValidatorSet, vs: VoteSet, v: Address, b: BlockID)
    requires ValidVoteSet(vals, vs) && v in vals.power && v !in vs.votes
    ensures var (r, added) := AddToSet(vals, vs, v, b);
      && added && v in Voters(r, b) && v in r.votes && r.votes[v] == b
      && r.sum == vs.sum + vals.power[v] && r.votes.Keys == vs.votes.Keys + {v}
  {
    CountedHaveVotes(vals, vs, b);
    var recorded := RecordCanonical(vals, vs, v, b);
    assert recorded.votes.Keys == vs.votes.Keys + {v} && Voters(recorded, b) == Voters(vs, b);
    CountedVotes(vals, recorded, v, b);
    hide ValidVoteSet, CountForBlock;
  }

  /** Another vote replaces the first one only if it is for the majority, or makes it. */
  lemma LaterVote(vals: ValidatorSet, vs: VoteSet, v: Address, b: BlockID, a: Address)
    requires ValidVoteSet(vals, vs) && a in vs.votes
    ensures var r := AddToSet(vals, vs, v, b).0;
      && a in r.votes
      && (r.votes[a] != vs.votes[a] ==> r.votes[a] == b && r.maj23 == Some(b))
      && (vs.maj23 == Some(b) && a == v && v in vals.power ==> r.votes[a] == b || v in Voters(vs, b))
  {
    if v in vals.power {
      CountedHaveVotes(vals, vs, b);
      var recorded := RecordCanonical(vals, vs, v, b);
      assert recorded.votes.Keys == vs.votes.Keys + {v} && Voters(recorded, b) == Voters(vs, b);
      CountedVotes(vals, recorded, v, b);
    }
    hide ValidVoteSet, CountForBlock;
  }

  /** The first block with a quorum of counted votes is the majority, from then on. */
  lemma MajorityExactly(vals: ValidatorSet, vs: VoteSet, v: Address, b: BlockID)
    requires ValidVoteSet(vals, vs)
    ensures var (r, added) := AddToSet(vals, vs, v, b);
      r.maj23 == if vs.maj23.Some? then vs.maj23
                 else if added && IsQuorum(vals, Voters(vs, b) + {v}) then Some(b) else None
  {
    hide ValidVoteSet;
    AddToSetKeepsValid(vals, vs, v, b);
    var (r, added) := AddToSet(vals, vs, v, b);
    AddToSetVoters(vals, vs, v, b, b);
    if vs.maj23 == None {
      OnlyNewMajority(vals, vs, v, b);
      SumsRight(vals, r, b);
      SumsRight(vals, vs, b);
    } else {
      AddToSetValid(vals, vs, v, b);
    }
  }

  lemma OnlyNewMajority(vals: ValidatorSet, vs: VoteSet, v: Address, b: BlockID)
    ensures var (r, added) := AddToSet(vals, vs, v, b);
      vs.maj23 == None && r.maj23.Some? ==> added && r.maj23 == Some(b)
  {
  }

  lemma SumsRight(vals: ValidatorSet, vs: VoteSet, b: BlockID)
    requires ValidVoteSet(vals, vs)
    ensures vs.maj23 == None ==> !IsQuorum(vals, Voters(vs, b))
    ensures vs.maj23 == Some(b) ==> IsQuorum(vals, Voters(vs, b))
  {
    assert Sum(vals.power, {}) == 0;
  }

  /** Votes change no claims. */
  lemma VotesClaimNothing(vals: ValidatorSet, vs: VoteSet, v: Address, b: BlockID, c: BlockID)
    ensures Claimed(AddToSet(vals, vs, v, b).0, c) <==> Claimed(vs, c)
    ensures AddToSet(vals, vs, v, b).0.peerMaj23s == vs.peerMaj23s
  {
    if v in vals.power {
      RecordClaimsNothing(vals, vs, v, b, c);
      CountClaimsNothing(vals, RecordCanonical(vals, vs, v, b), v, b, c);
      hide RecordCanonical, CountForBlock, Claimed;
    }
  }

  lemma RecordClaimsNothing(vals: ValidatorSet, vs: VoteSet, v: Address, b: BlockID, c: BlockID)
    requires v in vals.power
    ensures Claimed(RecordCanonical(vals, vs, v, b), c) <==> Claimed(vs, c)
    ensures RecordCanonical(vals, vs, v, b).peerMaj23s == vs.peerMaj23s
  {
  }

  lemma CountClaimsNothing(vals: ValidatorSet, vs: VoteSet, v: Address, b: BlockID, c: BlockID)
    requires v in vals.power
    ensures Claimed(CountForBlock(vals, vs, v, b), c) <==> Claimed(vs, c)
    ensures CountForBlock(vals, vs, v, b).peerMaj23s == vs.peerMaj23s
  {
  }

  /** A claim counts for the first block that a peer names, and changes nothing else. */
  lemma ClaimsExactly(vs: VoteSet, peer: Peer, b: BlockID, c: BlockID)
    ensures Claimed(SetPeerMaj23(vs, peer, b), c) <==> Claimed(vs, c) || (c == b && peer !in vs.peerMaj23s)
    ensures SetPeerMaj23(vs, peer, b).votes == vs.votes && SetPeerMaj23(vs, peer, b).sum == vs.sum
    ensures peer in SetPeerMaj23(vs, peer, b).peerMaj23s
    ensures peer in vs.peerMaj23s ==> SetPeerMaj23(vs, peer, b) == vs
  {
  }

  //---------------------------------------------------------------------------
  // Any sequence of votes and claims

  datatype Op = Casts(v: Address, b: BlockID) | Claims(peer: Peer, b: BlockID)

  function Do(vals: ValidatorSet, vs: VoteSet, op: Op): VoteSet {
    match op
    case Casts(v, b) => AddToSet(vals, vs, v, b).0
    case Claims(peer, b) => SetPeerMaj23(vs, peer, b)
  }

  /** The vote set of a round after these votes and claims. */
  function Play(vals: ValidatorSet, round: int, ops: seq<Op>): VoteSet {
    if ops == [] then EmptyVoteSet(round)
    else Do(vals, Play(vals, round, ops[..|ops| - 1]), ops[|ops| - 1])
  }

  lemma DoValid(vals: ValidatorSet, vs: VoteSet, op: Op)
    requires ValidVoteSet(vals, vs)
    ensures ValidVoteSet(vals, Do(vals, vs, op))
    ensures forall c :: Voters(vs, c) <= Voters(Do(vals, vs, op), c)
    ensures forall c, a :: a in Voters(Do(vals, vs, op), c) && a !in Voters(vs, c) ==> op == Casts(a, c)
  {
    hide ValidVoteSet, Voters;
    match op
    case Casts(v, b) => AddToSetValid(vals, vs, v, b);
    case Claims(peer, b) => SetPeerMaj23Valid(vals, vs, peer, b);
  }

  lemma {:induction false} PlayValid(vals: ValidatorSet, round: int, ops: seq<Op>)
    ensures ValidVoteSet(vals, Play(vals, round, ops))
  {
    if ops == [] {
      EmptyVoteSetValid(vals, round);
    } else {
      PlayValid(vals, round, ops[..|ops| - 1]);
      DoValid(vals, Play(vals, round, ops[..|ops| - 1]), ops[|ops| - 1]);
    }
  }

  /** The validator's first vote is for this block. */
  ghost predicate FirstVote(ops: seq<Op>, a: Address, b: BlockID) {
    exists i :: FirstVoteAt(ops, i, a, b)
  }

  ghost predicate FirstVoteAt(ops: seq<Op>, i: nat, a: Address, b: BlockID) {
    i < |ops| && ops[i] == Casts(a, b) && forall j :: 0 <= j < i && ops[j].Casts? ==> ops[j].v != a
  }

  /** Only those who voted have a vote. */
  lemma {:induction false} NoVoteYet(vals: ValidatorSet, round: int, ops: seq<Op>, a: Address)
    requires forall j :: 0 <= j < |ops| && ops[j].Casts? ==> ops[j].v != a
    ensures a !in Play(vals, round, ops).votes
  {
    if ops != [] {
      var less := ops[..|ops| - 1];
      assert forall j :: 0 <= j < |less| ==> less[j] == ops[j];
      NoVoteYet(vals, round, less, a);
      PlayValid(vals, round, less);
      OthersVote(vals, Play(vals, round, less), ops[|ops| - 1], a);
    }
  }

  lemma OthersVote(vals: ValidatorSet, vs: VoteSet, op: Op, a: Address)
    requires ValidVoteSet(vals, vs) && a !in vs.votes && (op.Casts? ==> op.v != a)
    ensures a !in Do(vals, vs, op).votes
  {
    if op.Casts? && op.v in vals.power {
      var recorded := RecordCanonical(vals, vs, op.v, op.b);
      CountedHaveVotes(vals, vs, op.b);
      assert recorded.votes.Keys == vs.votes.Keys + {op.v} && Voters(recorded, op.b) == Voters(vs, op.b);
      CountedVotes(vals, recorded, op.v, op.b);
    }
    hide ValidVoteSet, CountForBlock;
  }

  /** The first vote of a member is counted, whatever else is voted and claimed. */
  lemma {:induction false} FirstVoteCounted(vals: ValidatorSet, round: int, ops: seq<Op>, i: nat, a: Address,
                                            b: BlockID)
    requires a in vals.power && FirstVoteAt(ops, i, a, b)
    ensures a in Voters(Play(vals, round, ops), b)
  {
    hide ValidVoteSet, Do, Voters;
    var less := ops[..|ops| - 1];
    assert forall j :: 0 <= j < |less| ==> less[j] == ops[j];
    PlayValid(vals, round, less);
    DoValid(vals, Play(vals, round, less), ops[|ops| - 1]);
    if i < |ops| - 1 {
      FirstVoteCounted(vals, round, less, i, a, b);
    } else {
      NoVoteYet(vals, round, less, a);
      CastCounts(vals, Play(vals, round, less), a, b);
    }
  }

  lemma CastCounts(vals: ValidatorSet, vs: VoteSet, a: Address, b: BlockID)
    requires ValidVoteSet(vals, vs) && a in vals.power && a !in vs.votes
    ensures a in Voters(Do(vals, vs, Casts(a, b)), b)
  {
    FirstVoteStands(vals, vs, a, b);
  }

  /** Whoever is counted for a block has voted for it. */
  lemma {:induction false} VotersVoted(vals: ValidatorSet, round: int, ops: seq<Op>, a: Address, b: BlockID)
    requires a in Voters(Play(vals, round, ops), b)
    ensures Casts(a, b) in ops
  {
    hide Do;
    if ops != [] {
      var less := ops[..|ops| - 1];
      PlayValid(vals, round, less);
      hide ValidVoteSet, Voters;
      DoValid(vals, Play(vals, round, less), ops[|ops| - 1]);
      if a in Voters(Play(vals, round, less), b) {
        VotersVoted(vals, round, less, a, b);
      }
    }
  }

  /**
    If more than two thirds of the power first vote for one block then a majority is seen, in any order and
    whatever else is voted and claimed; it is for this block unless another one has a quorum as well.
  */
  lemma QuorumDecides(vals: ValidatorSet, round: int, ops: seq<Op>, s: set<Address>, b: BlockID)
    requires s <= vals.power.Keys && 3 * Sum(vals.power, s) > 2 * vals.total
    requires forall a :: a in s ==> FirstVote(ops, a, b)
    ensures var maj := Play(vals, round, ops).maj23;
      && maj.Some? && IsQuorum(vals, Voters(Play(vals, round, ops), maj.value))
      && ((forall c :: c != b ==> !IsQuorum(vals, Voters(Play(vals, round, ops), c))) ==> maj == Some(b))
  {
    var vs := Play(vals, round, ops);
    hide Play, Voters, ValidVoteSet;
    PlayValid(vals, round, ops);
    forall a | a in s ensures a in Voters(vs, b) {
      var i :| FirstVoteAt(ops, i, a, b);
      FirstVoteCounted(vals, round, ops, i, a, b);
    }
    SumMonotone(vals.power, s, Voters(vs, b));
    SumsRight(vals, vs, b);
    if vs.maj23.Some? {
      SumsRight(vals, vs, vs.maj23.value);
    }
  }

  /** A majority is never seen without more than two thirds of the power having voted for it. */
  lemma MajorityVoted(vals: ValidatorSet, round: int, ops: seq<Op>)
    ensures var maj := Play(vals, round, ops).maj23;
      maj.Some? ==> exists s: set<Address> ::
        3 * Sum(vals.power, s) > 2 * vals.total && forall a :: a in s ==> Casts(a, maj.value) in ops
  {
    var vs := Play(vals, round, ops);
    hide Play, ValidVoteSet;
    PlayValid(vals, round, ops);
    if vs.maj23.Some? {
      var b := vs.maj23.value;
      SumsRight(vals, vs, b);
      forall a | a in Voters(vs, b) ensures Casts(a, b) in ops {
        VotersVoted(vals, round, ops, a, b);
      }
      QuorumIsTwoThirds(vals, Voters(vs, b));
    }
  }

  //---------------------------------------------------------------------------
  // All rounds of a height

  function Opened(hvs: HeightVoteSet, peer: Peer): seq<int> {
    if peer in hvs.catchup then hvs.catchup[peer] else []
  }

  /** A vote counts if and only if its round is tracked or its peer has opened fewer than two, and its set counts it. */
  lemma AddedToHeightExactly(vals: ValidatorSet, hvs: HeightVoteSet, vote: Vote, peer: Peer)
    ensures var (r, added) := AddToHeight(vals, hvs, vote, peer);
      var vs, v, b := GetSet(hvs, vote.round, vote.kind), vote.validator, vote.blockID;
      && (added <==>
           && (vote.round in hvs.sets || |Opened(hvs, peer)| < 2)
           && v in vals.power && v !in Voters(vs, b) && (v in vs.votes ==> vs.votes[v] != b && Claimed(vs, b)))
      && (added ==> v in Voters(GetSet(r, vote.round, vote.kind), b))
      && (added ==> GetSet(r, vote.round, vote.kind) == AddToSet(vals, vs, v, b).0)
  {
    hide AddToSet;
    AddedExactly(vals, GetSet(hvs, vote.round, vote.kind), vote.validator, vote.blockID);
    AddToSetVoters(vals, GetSet(hvs, vote.round, vote.kind), vote.validator, vote.blockID, vote.blockID);
  }

  /** No peer opens more than two rounds, and each that it opens is written down. */
  lemma RoundsOpened(vals: ValidatorSet, hvs: HeightVoteSet, vote: Vote, peer: Peer, p: Peer)
    requires |Opened(hvs, p)| <= 2
    ensures var r := AddToHeight(vals, hvs, vote, peer).0;
      && |Opened(r, p)| <= 2
      && Opened(r, p) == (if p == peer && vote.round !in hvs.sets && |Opened(hvs, p)| < 2
                          then Opened(hvs, p) + [vote.round] else Opened(hvs, p))
      && (vote.round in r.sets <==> vote.round in hvs.sets || |Opened(hvs, peer)| < 2)
      && (forall q :: q != vote.round ==> (q in r.sets <==> q in hvs.sets))
  {
    hide AddToSet;
  }

  /** Moving on tracks all rounds from the one below the present one up to the new one, and no others. */
  lemma TracksUpTo(hvs: HeightVoteSet, round: int)
    ensures SetRound(hvs, round).round == round && SetRound(hvs, round).catchup == hvs.catchup
    ensures forall r :: r in SetRound(hvs, round).sets <==> r in hvs.sets || hvs.round - 1 <= r <= round
  {
  }
}
