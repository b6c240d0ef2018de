/**
  The votes a node has collected: one VoteSet for each (round, type), and the
  HeightVoteSet that holds those of one height.
*/
module VoteSets {
  import opened Power

  type Hash = nat
  type Peer = nat

  datatype PartSetHeader = PartSetHeader(total: nat, root: Hash)

  /** What a vote is for: nil, or a block hash together with a part-set header. */
  datatype BlockID = NilBlock | BlockID(hash: Hash, parts: PartSetHeader)

  datatype VoteType = Prevote | Precommit

  datatype Vote = Vote(height: nat, round: nat, kind: VoteType, blockID: BlockID, validator: Address)

  /** The votes for one block; `peerMaj23` says that some peer claims a majority for it. */
  datatype BlockVotes = BlockVotes(peerMaj23: bool, voters: set<Address>, sum: nat)

  datatype VoteSet = VoteSet(
    round: int,
    votes: map<Address, BlockID>,       // the canonical vote of each validator
    sum: nat,                           // power of the validators with a canonical vote
    maj23: Option<BlockID>,             // first +2/3 majority seen
    byBlock: map<BlockID, BlockVotes>,
    peerMaj23s: map<Peer, BlockID>)

  function EmptyVoteSet(round: int): VoteSet {
    VoteSet(round, map[], 0, None, map[], map[])
  }

  /** The bookkeeping of a vote set agrees with the votes it holds. */
  ghost predicate ValidVoteSet(vals: ValidatorSet, vs: VoteSet) {
    && vs.votes.Keys <= vals.power.Keys
    && vs.sum == Sum(vals.power, vs.votes.Keys)
    && (forall b :: b in vs.byBlock ==>
      && vs.byBlock[b].voters <= vs.votes.Keys
      && vs.byBlock[b].sum == Sum(vals.power, vs.byBlock[b].voters))
    && (vs.maj23 == None ==> forall b :: b in vs.byBlock ==> vs.byBlock[b].sum < vals.Quorum())
    && (vs.maj23.Some? ==> vs.maj23.value in vs.byBlock && vs.byBlock[vs.maj23.value].sum >= vals.Quorum())
  }

  /** The validators whose vote for `b` is counted. */
  function Voters(vs: VoteSet, b: BlockID): set<Address> {
    if b in vs.byBlock then vs.byBlock[b].voters else {}
  }

  predicate KnownVote(vs: VoteSet, v: Address, b: BlockID) {
    (v in vs.votes && vs.votes[v] == b) || v in Voters(vs, b)
  }

  /** Records `b` as the canonical vote of `v`, unless an earlier vote stands. */
  function RecordCanonical(vals: ValidatorSet, vs: VoteSet, v: Address, b: BlockID): VoteSet
    requires v in vals.power
  {
    if v !in vs.votes then vs.(votes := vs.votes[v := b], sum := vs.sum + vals.power[v])
    else if vs.maj23 == Some(b) then vs.(votes := vs.votes[v := b])
    else vs
  }

  /** Counts the vote of `v` for `b`; the first block to cross the quorum becomes the majority. */
  function CountForBlock(vals: ValidatorSet, vs: VoteSet, v: Address, b: BlockID): VoteSet
    requires v in vals.power
  {
    var before := if b in vs.byBlock then vs.byBlock[b] else BlockVotes(false, {}, 0);
    var after := before.(voters := before.voters + {v}, sum := before.sum + vals.power[v]);
    var counted := vs.(byBlock := vs.byBlock[b := after]);
    if before.sum < vals.Quorum() <= after.sum && vs.maj23 == None then
      counted.(maj23 := Some(b), votes := vs.votes + (map a | a in after.voters :: b))
    else
      counted
  }

  /** Adds a vote with a valid signature; the flag says whether it was counted. */
  function AddToSet(vals: ValidatorSet, vs: VoteSet, v: Address, b: BlockID): (r: (VoteSet, bool))
  {
    if v !in vals.power || KnownVote(vs, v, b) then (vs, false) else
    var recorded := RecordCanonical(vals, vs, v, b);
    if v in vs.votes && (b !in vs.byBlock || !vs.byBlock[b].peerMaj23) then (recorded, false)
    else (CountForBlock(vals, recorded, v, b), true)
  }

  /** A peer claims a +2/3 majority for `b`: start tracking conflicting votes for it. */
  function SetPeerMaj23(vs: VoteSet, peer: Peer, b: BlockID): (r: VoteSet)
  {
    if peer in vs.peerMaj23s then vs else
    var entry := if b in vs.byBlock then vs.byBlock[b].(peerMaj23 := true) else BlockVotes(true, {}, 0);
    vs.(peerMaj23s := vs.peerMaj23s[peer := b], byBlock := vs.byBlock[b := entry])
  }

  lemma RecordCanonicalValid(vals: ValidatorSet, vs: VoteSet, v: Address, b: BlockID)
    requires ValidVoteSet(vals, vs) && v in vals.power
    ensures ValidVoteSet(vals, RecordCanonical(vals, vs, v, b))
  {
    var r := RecordCanonical(vals, vs, v, b);
    if v !in vs.votes {
      SumAdd(vals.power, vs.votes.Keys, v);
      assert r.votes.Keys == vs.votes.Keys + {v};
    } else {
      assert r.votes.Keys == vs.votes.Keys;
    }
  }

  lemma CountForBlockValid(vals: ValidatorSet, vs: VoteSet, v: Address, b: BlockID)
    requires ValidVoteSet(vals, vs) && v in vals.power && v in vs.votes && v !in Voters(vs, b)
    ensures ValidVoteSet(vals, CountForBlock(vals, vs, v, b))
  {
    var r := CountForBlock(vals, vs, v, b);
    assert Sum(vals.power, {}) == 0;
    SumAdd(vals.power, Voters(vs, b), v);
    assert r.votes.Keys == vs.votes.Keys;
    assert r.byBlock[b].voters == Voters(vs, b) + {v};
    forall c | c in r.byBlock && c != b ensures c in vs.byBlock && r.byBlock[c] == vs.byBlock[c] {
    }
  }

  lemma AddToSetKeepsValid(vals: ValidatorSet, vs: VoteSet, v: Address, b: BlockID)
    requires ValidVoteSet(vals, vs)
    ensures ValidVoteSet(vals, AddToSet(vals, vs, v, b).0)
  {
    if v in vals.power && !KnownVote(vs, v, b) {
      hide ValidVoteSet;
      var recorded := RecordCanonical(vals, vs, v, b);
      RecordCanonicalValid(vals, vs, v, b);
      if AddToSet(vals, vs, v, b).1 {
        CountForBlockValid(vals, recorded, v, b);
      }
    }
  }

  lemma AddToSetVoters(vals: ValidatorSet, vs: VoteSet, v: Address, b: BlockID, c: BlockID)
    ensures var (r, added) := AddToSet(vals, vs, v, b);
      Voters(r, c) == if added && c == b then Voters(vs, c) + {v} else Voters(vs, c)
  {
  }

  /**
    Adding a vote keeps the set valid, never revokes a majority, and counts at
    most that one vote, for that one block.
  */
  lemma AddToSetValid(vals: ValidatorSet, vs: VoteSet, v: Address, b: BlockID)
    requires ValidVoteSet(vals, vs)
    ensures var (r, added) := AddToSet(vals, vs, v, b);
      && ValidVoteSet(vals, r)
      && (vs.maj23.Some? ==> r.maj23 == vs.maj23)
      && (forall c :: Voters(r, c) == if added && c == b then Voters(vs, c) + {v} else Voters(vs, c))
      && (added ==> v !in Voters(vs, b))
      && r.round == vs.round
  {
    AddToSetKeepsValid(vals, vs, v, b);
    hide ValidVoteSet;
    var (r, added) := AddToSet(vals, vs, v, b);
    forall c ensures Voters(r, c) == if added && c == b then Voters(vs, c) + {v} else Voters(vs, c) {
      AddToSetVoters(vals, vs, v, b, c);
    }
  }

  lemma SetPeerMaj23KeepsValid(vals: ValidatorSet, vs: VoteSet, peer: Peer, b: BlockID)
    requires ValidVoteSet(vals, vs)
    ensures ValidVoteSet(vals, SetPeerMaj23(vs, peer, b))
  {
    assert Sum(vals.power, {}) == 0;
    hide Sum;
    var r := SetPeerMaj23(vs, peer, b);
    forall c | c in r.byBlock
      ensures r.byBlock[c].voters <= r.votes.Keys && r.byBlock[c].sum == Sum(vals.power, r.byBlock[c].voters)
    {
      if c != b {
        assert c in vs.byBlock && r.byBlock[c] == vs.byBlock[c];
      }
    }
  }

  lemma SetPeerMaj23Valid(vals: ValidatorSet, vs: VoteSet, peer: Peer, b: BlockID)
    requires ValidVoteSet(vals, vs)
    ensures var r := SetPeerMaj23(vs, peer, b);
      && ValidVoteSet(vals, r)
      && r.maj23 == vs.maj23
      && (forall c :: Voters(r, c) == Voters(vs, c))
      && r.round == vs.round
  {
    SetPeerMaj23KeepsValid(vals, vs, peer, b);
    hide ValidVoteSet;
  }

  lemma EmptyVoteSetValid(vals: ValidatorSet, round: int)
    ensures ValidVoteSet(vals, EmptyVoteSet(round))
  {
    assert Sum(vals.power, {}) == 0;
  }

  //---------------------------------------------------------------------------

  datatype RoundVotes = RoundVotes(prevotes: VoteSet, precommits: VoteSet)

  /** All votes of one height; `round` is the highest round tracked on our own account. */
  datatype HeightVoteSet = HeightVoteSet(
    round: int,
    sets: map<int, RoundVotes>,
    catchup: map<Peer, seq<int>>)

  function EmptyRound(r: int): RoundVotes {
    RoundVotes(EmptyVoteSet(r), EmptyVoteSet(r))
  }

  function NewHeightVoteSet(): HeightVoteSet {
    HeightVoteSet(0, map[0 := EmptyRound(0)], map[])
  }

  /** The vote set of a round and type; a round that is not tracked has no votes. */
  function GetSet(hvs: HeightVoteSet, r: int, t: VoteType): (vs: VoteSet) {
    if r !in hvs.sets then EmptyVoteSet(r)
    else if t == Prevote then hvs.sets[r].prevotes else hvs.sets[r].precommits
  }

  function TwoThirdsMajority(hvs: HeightVoteSet, r: int, t: VoteType): Option<BlockID> {
    GetSet(hvs, r, t).maj23
  }

  predicate HasTwoThirdsAny(vals: ValidatorSet, hvs: HeightVoteSet, r: int, t: VoteType) {
    GetSet(hvs, r, t).sum > vals.total * 2 / 3
  }

  predicate HasAll(vals: ValidatorSet, vs: VoteSet) {
    vs.sum == vals.total
  }

  function PutSet(hvs: HeightVoteSet, r: int, t: VoteType, vs: VoteSet): HeightVoteSet {
    var before := if r in hvs.sets then hvs.sets[r] else EmptyRound(r);
    hvs.(sets := hvs.sets[r := if t == Prevote then before.(prevotes := vs) else before.(precommits := vs)])
  }

  /** Rounds from one below the tracked round up to `round` become tracked. */
  function SetRound(hvs: HeightVoteSet, round: int): HeightVoteSet {
    var added := set r | hvs.round - 1 <= r <= round && r !in hvs.sets;
    hvs.(round := round, sets := hvs.sets + (map r | r in added :: EmptyRound(r)))
  }

  /** The highest tracked round with a +2/3 majority of prevotes, or -1. */
  function PolRound(hvs: HeightVoteSet, from: int): (r: int)
    ensures -1 <= r
    ensures 0 <= r ==> TwoThirdsMajority(hvs, r, Prevote).Some?
    ensures forall q :: r < q <= from ==> q < 0 || TwoThirdsMajority(hvs, q, Prevote) == None
    decreases from + 1
  {
    if from < 0 then -1
    else if TwoThirdsMajority(hvs, from, Prevote).Some? then from
    else PolRound(hvs, from - 1)
  }

  /**
    Adds a vote of this height. A vote for an untracked round opens that round,
    but each peer may do so only twice.
  */
  function AddToHeight(vals: ValidatorSet, hvs: HeightVoteSet, vote: Vote, peer: Peer): (r: (HeightVoteSet, bool))
  {
    var rounds := if peer in hvs.catchup then hvs.catchup[peer] else [];
    if vote.round !in hvs.sets && |rounds| >= 2 then (hvs, false) else
    var hvs1 := if vote.round in hvs.sets then hvs
                else hvs.(sets := hvs.sets[vote.round := EmptyRound(vote.round)],
                          catchup := hvs.catchup[peer := rounds + [vote.round]]);
    var (vs, added) := AddToSet(vals, GetSet(hvs1, vote.round, vote.kind), vote.validator, vote.blockID);
    (PutSet(hvs1, vote.round, vote.kind, vs), added)
  }

  function SetPeerMaj23InHeight(hvs: HeightVoteSet, r: int, t: VoteType, peer: Peer, b: BlockID): HeightVoteSet {
    if r !in hvs.sets then hvs
    else PutSet(hvs, r, t, SetPeerMaj23(GetSet(hvs, r, t), peer, b))
  }

  ghost predicate ValidHeightVotes(vals: ValidatorSet, hvs: HeightVoteSet) {
    forall r, t :: ValidVoteSet(vals, GetSet(hvs, r, t))
  }

  /** Every majority and every counted vote of `a` is still there in `b`. */
  ghost predicate VotesGrow(a: HeightVoteSet, b: HeightVoteSet) {
    && (forall r, t :: TwoThirdsMajority(a, r, t).Some? ==> TwoThirdsMajority(b, r, t) == TwoThirdsMajority(a, r, t))
    && (forall r, t, c :: Voters(GetSet(a, r, t), c) <= Voters(GetSet(b, r, t), c))
  }

  lemma NewHeightVotesValid(vals: ValidatorSet)
    ensures ValidHeightVotes(vals, NewHeightVoteSet())
    ensures forall r, t :: TwoThirdsMajority(NewHeightVoteSet(), r, t) == None
    ensures forall r, t, c :: Voters(GetSet(NewHeightVoteSet(), r, t), c) == {}
  {
    forall r, t ensures ValidVoteSet(vals, GetSet(NewHeightVoteSet(), r, t)) {
      EmptyVoteSetValid(vals, r);
    }
  }

  lemma SetRoundKeepsVotes(vals: ValidatorSet, hvs: HeightVoteSet, round: int)
    ensures forall r, t :: GetSet(SetRound(hvs, round), r, t) == GetSet(hvs, r, t)
  {
  }

  lemma AddToHeightSets(vals: ValidatorSet, hvs: HeightVoteSet, vote: Vote, peer: Peer)
    ensures var (r, added) := AddToHeight(vals, hvs, vote, peer);
      var (vs, ok) := AddToSet(vals, GetSet(hvs, vote.round, vote.kind), vote.validator, vote.blockID);
      || (r, added) == (hvs, false)
      || (added == ok && r.round == hvs.round &&
          forall q, t :: GetSet(r, q, t) == if q == vote.round && t == vote.kind then vs else GetSet(hvs, q, t))
  {
    hide AddToSet;
  }

  /** Adding a vote keeps the height's votes valid and counts at most that one vote. */
  lemma AddToHeightValid(vals: ValidatorSet, hvs: HeightVoteSet, vote: Vote, peer: Peer)
    requires ValidHeightVotes(vals, hvs)
    ensures var (r, added) := AddToHeight(vals, hvs, vote, peer);
      && ValidHeightVotes(vals, r)
      && VotesGrow(hvs, r)
      && (forall q, t, c, v :: v in Voters(GetSet(r, q, t), c) && v !in Voters(GetSet(hvs, q, t), c) ==>
            added && q == vote.round && t == vote.kind && c == vote.blockID && v == vote.validator)
      && r.round == hvs.round
  {
    hide AddToSet, AddToHeight, GetSet, ValidVoteSet, Voters;
    AddToHeightSets(vals, hvs, vote, peer);
    AddToSetValid(vals, GetSet(hvs, vote.round, vote.kind), vote.validator, vote.blockID);
  }

  lemma SetPeerMaj23InHeightValid(vals: ValidatorSet, hvs: HeightVoteSet, r: int, t: VoteType, peer: Peer, b: BlockID)
    requires ValidHeightVotes(vals, hvs)
    ensures var s := SetPeerMaj23InHeight(hvs, r, t, peer, b);
      && ValidHeightVotes(vals, s)
      && VotesGrow(hvs, s)
      && (forall q, k :: TwoThirdsMajority(s, q, k) == TwoThirdsMajority(hvs, q, k))
      && (forall q, k, c :: Voters(GetSet(s, q, k), c) == Voters(GetSet(hvs, q, k), c))
      && s.round == hvs.round
  {
    SetPeerMaj23Valid(vals, GetSet(hvs, r, t), peer, b);
    if r in hvs.sets {
      var s, vs := SetPeerMaj23InHeight(hvs, r, t, peer, b), SetPeerMaj23(GetSet(hvs, r, t), peer, b);
      forall q, k
        ensures GetSet(s, q, k) == if q == r && k == t then vs else GetSet(hvs, q, k)
      {
      }
    }
  }
}
