/**
  Many nodes running the consensus state machine over a shared log of signed votes.
  Correct nodes follow the handlers; all other validators may sign anything at any
  time. As long as the others hold less than a third of the power, correct nodes
  never finalize different blocks at the same height.
*/
module Agreement {
  import opened Power
  import opened VoteSets
  import opened Consensus
  import opened ConsensusInvariant
  import opened ConsensusSteps

  /** The correct nodes, and all votes signed so far by anyone, in order. */
  datatype System = System(nodes: map<Address, Node>, log: seq<Vote>)

  datatype Action =
    | Turn(u: Address, o: Oracle, e: Event)   // a correct node handles an event
    | Sign(vote: Vote)                        // a faulty validator signs a vote

  /** After these blocks, faulty validators hold less than a third of the power. */
  ghost predicate FewFaulty(p: Params, correct: set<Address>, chain: seq<BlockID>) {
    p.vals(chain).Valid() && FaultsBelowThird(p.vals(chain), correct)
  }

  /** This holds after whatever correct nodes have finalized. */
  ghost predicate FaultsLow(p: Params, correct: set<Address>, s: System) {
    && 1 <= p.initialHeight
    && forall u, k :: u in s.nodes && 0 <= k <= |s.nodes[u].chain| ==> FewFaulty(p, correct, s.nodes[u].chain[..k])
  }

  ghost predicate FaultAssumption(p: Params, correct: set<Address>, run: seq<System>) {
    forall i :: 0 <= i < |run| ==> FaultsLow(p, correct, run[i])
  }

  ghost predicate Init(p: Params, correct: set<Address>, s: System) {
    && s.nodes.Keys == correct
    && (forall u :: u in correct ==> s.nodes[u] == InitNode(p, u))
    && s.log == []
  }

  function NewVotes(before: seq<Vote>, after: seq<Vote>): seq<Vote> {
    if |before| <= |after| then after[|before|..] else []
  }

  ghost predicate Next(p: Params, s: System, a: Action, s': System) {
    match a
    case Turn(u, o, e) =>
      && u in s.nodes
      && Deliverable(s.nodes[u], e, s.log)
      && var m := Handle(p, o, s.nodes[u], e);
         s'.nodes == s.nodes[u := m] && s'.log == s.log + NewVotes(s.nodes[u].sent, m.sent)
    case Sign(vote) =>
      && vote.validator !in s.nodes
      && s' == s.(log := s.log + [vote])
  }

  /** A run: any interleaving of turns of correct nodes and votes of faulty validators. */
  ghost predicate IsRun(p: Params, correct: set<Address>, run: seq<System>, acts: seq<Action>) {
    && |run| == |acts| + 1
    && Init(p, correct, run[0])
    && forall i :: 0 <= i < |acts| ==> Next(p, run[i], acts[i], run[i + 1])
  }

  //---------------------------------------------------------------------------
  // The system invariant

  ghost predicate NodesInv(p: Params, s: System) {
    forall u :: u in s.nodes ==> s.nodes[u].id == u && Inv(p, s.nodes[u], s.log)
  }

  /** The log holds exactly what the correct nodes have signed, besides the votes of others. */
  ghost predicate LogInv(s: System) {
    && (forall u, v :: u in s.nodes && v in s.nodes[u].sent ==> v in s.log)
    && (forall v :: v in s.log && v.validator in s.nodes ==> v in s.nodes[v.validator].sent)
  }

  /** Each prevote of a correct node was justified, when signed, against all its precommits. */
  ghost predicate LockRule(p: Params, s: System) {
    forall j, w :: 0 <= j < |s.log| && w in s.log && w.validator == s.log[j].validator && w.validator in s.nodes ==>
      Justified(p, s.nodes[w.validator].chain, s.log[..j], w, s.log[j])
  }

  ghost predicate SystemInv(p: Params, correct: set<Address>, s: System) {
    && s.nodes.Keys == correct
    && NodesInv(p, s)
    && LogInv(s)
    && LockRule(p, s)
  }

  //---------------------------------------------------------------------------
  // Votes only accumulate

  lemma MajorityMonotone(p: Params, chain: seq<BlockID>, log: seq<Vote>, log': seq<Vote>, r: int, t: VoteType,
                         b: BlockID)
    requires MajorityAfter(p, chain, log, r, t, b) && (forall v :: v in log ==> v in log')
    ensures MajorityAfter(p, chain, log', r, t, b)
  {
    var h := p.initialHeight + |chain|;
    assert VotersIn(log, h, r, t, b) <= VotersIn(log', h, r, t, b);
    SumMonotone(p.vals(chain).power, VotersIn(log, h, r, t, b), VotersIn(log', h, r, t, b));
  }

  lemma JustifiedMonotone(p: Params, chain: seq<BlockID>, log: seq<Vote>, log': seq<Vote>, w: Vote, v: Vote)
    requires Justified(p, chain, log, w, v) && (forall x :: x in log ==> x in log')
    ensures Justified(p, chain, log', w, v)
  {
    hide MajorityAfter;
    if v.kind == Prevote && w.kind == Precommit && w.height == v.height && w.round < v.round &&
       w.blockID.BlockID? && w.blockID != v.blockID {
      var r, c :| w.round < r <= v.round && c != w.blockID &&
        MajorityAfter(p, Below(p, chain, v.height), log, r, Prevote, c);
      MajorityMonotone(p, Below(p, chain, v.height), log, log', r, Prevote, c);
    }
  }

  lemma InvMonotone(p: Params, n: Node, log: seq<Vote>, log': seq<Vote>)
    requires Inv(p, n, log) && (forall v :: v in log ==> v in log')
    ensures Inv(p, n, log')
  {
    hide BasicInv, BlocksInv, LockInv, ValidBlockInv, CommitInv, SentInv, LockHistory, TimeoutsInv, MajorityAfter;
    hide ValidID, GetSet, Voters;
    forall i | 0 <= i < |n.sent| ensures VoteGround(p, n.chain, log', n.sent[i]) {
      var v := n.sent[i];
      assert VoteGround(p, n.chain, log, v);
      if v.blockID.BlockID? && v.kind == Precommit {
        MajorityMonotone(p, Below(p, n.chain, v.height), log, log', v.round, Prevote, v.blockID);
      }
    }
    forall i | 0 <= i < |n.chain| ensures DecidedAt(p, n.chain, log', i) {
      assert DecidedAt(p, n.chain, log, i);
      var r :| MajorityAfter(p, n.chain[..i], log, r, Precommit, n.chain[i]);
      MajorityMonotone(p, n.chain[..i], log, log', r, Precommit, n.chain[i]);
    }
  }

  //---------------------------------------------------------------------------
  // Agreement in a state

  /** All correct nodes that have finalized as much as `c` have finalized `c`. */
  ghost predicate SharedPrefix(s: System, c: seq<BlockID>) {
    forall u :: u in s.nodes && |c| <= |s.nodes[u].chain| ==> s.nodes[u].chain[..|c|] == c
  }

  /** What a correct validator's vote at the height after `c` says about it. */
  lemma CorrectVote(p: Params, correct: set<Address>, s: System, c: seq<BlockID>, v: Vote)
    requires SystemInv(p, correct, s) && SharedPrefix(s, c)
    requires v in s.log && v.validator in correct && v.height == p.initialHeight + |c|
    ensures v in s.nodes[v.validator].sent
    ensures Below(p, s.nodes[v.validator].chain, v.height) == c
    ensures VoteGround(p, s.nodes[v.validator].chain, s.log, v)
  {
    hide BlocksInv, LockInv, ValidBlockInv, CommitInv, LockHistory, Backed, Decided, TimeoutsInv, ValidHeightVotes;
    hide LastCommitInv;
    hide LockRule, VoteGround;
    var n := s.nodes[v.validator];
    assert Inv(p, n, s.log);
    var i :| 0 <= i < |n.sent| && n.sent[i] == v;
    assert SentBefore(p, n.id, n.sent[i], n.rs.height, n.rs.round, n.rs.step);
  }

  lemma VoterVoted(log: seq<Vote>, h: nat, r: int, t: VoteType, b: BlockID, a: Address) returns (v: Vote)
    requires a in VotersIn(log, h, r, t, b)
    ensures v in log && v.height == h && v.round == r && v.kind == t && v.blockID == b && v.validator == a
  {
    v :| v in log && v.height == h && v.round == r && v.kind == t && v.blockID == b && v.validator == a;
  }

  /**
    Once a block has a majority of precommits, no polka for anything else ever forms at a
    later round: the first correct node to prevote otherwise would need an earlier such polka.
  */
  lemma {:induction false} NoLaterPolka(p: Params, correct: set<Address>, s: System, c: seq<BlockID>, r1: int,
                                        b1: BlockID, k: nat, r: int, b: BlockID)
    requires FewFaulty(p, correct, c) && SystemInv(p, correct, s) && SharedPrefix(s, c)
    requires b1.BlockID? && MajorityAfter(p, c, s.log, r1, Precommit, b1)
    requires k <= |s.log| && r1 < r && b != b1
    ensures !MajorityAfter(p, c, s.log[..k], r, Prevote, b)
    decreases k
  {
    hide NodesInv, LogInv, SharedPrefix;
    if MajorityAfter(p, c, s.log[..k], r, Prevote, b) {
      var h := p.initialHeight + |c|;
      var prevoters, precommitters := VotersIn(s.log[..k], h, r, Prevote, b), VotersIn(s.log, h, r1, Precommit, b1);
      QuorumIntersection(p.vals(c), prevoters, precommitters, correct);
      var a :| a in prevoters && a in precommitters && a in correct;
      var v := VoterVoted(s.log[..k], h, r, Prevote, b, a);
      var w := VoterVoted(s.log, h, r1, Precommit, b1, a);
      var j :| 0 <= j < k && s.log[j] == v;
      CorrectVote(p, correct, s, c, v);
      hide MajorityAfter, VotersIn;
      assert Justified(p, s.nodes[a].chain, s.log[..j], w, v);
      var r', c' :| r1 < r' <= r && c' != b1 && MajorityAfter(p, c, s.log[..j], r', Prevote, c');
      NoLaterPolka(p, correct, s, c, r1, b1, j, r', c');
      assert false;
    }
  }

  lemma SameSlotSameVote(p: Params, n: Node, log: seq<Vote>, v: Vote, w: Vote)
    requires Inv(p, n, log) && v in n.sent && w in n.sent
    requires v.height == w.height && v.round == w.round && v.kind == w.kind
    ensures v == w
  {
    hide BlocksInv, LockInv, ValidBlockInv, CommitInv, LockHistory, Backed, Decided, TimeoutsInv, BasicInv;
    hide SentGrounded;
    var i :| 0 <= i < |n.sent| && n.sent[i] == v;
    var j :| 0 <= j < |n.sent| && n.sent[j] == w;
    assert (i < j ==> InOrder(v, w)) && (j < i ==> InOrder(w, v));
  }

  /** At one height there is at most one block with a majority of precommits, in any rounds. */
  lemma CommitUnique(p: Params, correct: set<Address>, s: System, c: seq<BlockID>, r1: int, b1: BlockID, r2: int,
                     b2: BlockID)
    requires FewFaulty(p, correct, c) && SystemInv(p, correct, s) && SharedPrefix(s, c)
    requires b1.BlockID? && MajorityAfter(p, c, s.log, r1, Precommit, b1)
    requires b2.BlockID? && MajorityAfter(p, c, s.log, r2, Precommit, b2)
    requires r1 <= r2
    ensures b1 == b2
  {
    hide LogInv, LockRule, SharedPrefix, Inv;
    var h := p.initialHeight + |c|;
    var first, second := VotersIn(s.log, h, r1, Precommit, b1), VotersIn(s.log, h, r2, Precommit, b2);
    QuorumIntersection(p.vals(c), first, second, correct);
    var a :| a in first && a in second && a in correct;
    var v := VoterVoted(s.log, h, r1, Precommit, b1, a);
    var w := VoterVoted(s.log, h, r2, Precommit, b2, a);
    CorrectVote(p, correct, s, c, v);
    CorrectVote(p, correct, s, c, w);
    if r1 == r2 {
      SameSlotSameVote(p, s.nodes[a], s.log, v, w);
    } else if b1 != b2 {
      assert s.log[..|s.log|] == s.log;
      NoLaterPolka(p, correct, s, c, r1, b1, |s.log|, r2, b2);
    }
  }

  /** The i-th block that a correct node finalized, and the round of its majority. */
  lemma FinalizedWithMajority(p: Params, correct: set<Address>, s: System, u: Address, i: nat) returns (r: int)
    requires SystemInv(p, correct, s) && u in s.nodes && i < |s.nodes[u].chain|
    ensures var chain := s.nodes[u].chain;
      chain[i].BlockID? && MajorityAfter(p, chain[..i], s.log, r, Precommit, chain[i])
  {
    hide BasicInv, BlocksInv, LockInv, ValidBlockInv, CommitInv, LockHistory, Backed, TimeoutsInv, SentInv;
    hide SentGrounded, LogInv, LockRule, MajorityAfter;
    var chain := s.nodes[u].chain;
    assert DecidedAt(p, chain, s.log, i);
    r :| MajorityAfter(p, chain[..i], s.log, r, Precommit, chain[i]);
  }

  lemma LowAt(p: Params, correct: set<Address>, s: System, u: Address, k: nat)
    requires FaultsLow(p, correct, s) && u in s.nodes && k <= |s.nodes[u].chain|
    ensures FewFaulty(p, correct, s.nodes[u].chain[..k])
  {
  }

  /** Correct nodes agree on the first `k` finalized blocks. */
  lemma {:induction false} ChainsAgree(p: Params, correct: set<Address>, s: System, u: Address, v: Address, k: nat)
    requires FaultsLow(p, correct, s) && SystemInv(p, correct, s)
    requires u in s.nodes && v in s.nodes && k <= |s.nodes[u].chain| && k <= |s.nodes[v].chain|
    ensures s.nodes[u].chain[..k] == s.nodes[v].chain[..k]
    decreases k
  {
    hide SystemInv, FaultsLow, MajorityAfter;
    if k > 0 {
      var cu, cv := s.nodes[u].chain, s.nodes[v].chain;
      var c := cu[..k - 1];
      LowAt(p, correct, s, u, k - 1);
      forall w | w in s.nodes && |c| <= |s.nodes[w].chain| ensures s.nodes[w].chain[..|c|] == c {
        ChainsAgree(p, correct, s, w, u, k - 1);
      }
      assert cv[..k - 1] == c;
      var r1 := FinalizedWithMajority(p, correct, s, u, k - 1);
      var r2 := FinalizedWithMajority(p, correct, s, v, k - 1);
      if r1 <= r2 {
        CommitUnique(p, correct, s, c, r1, cu[k - 1], r2, cv[k - 1]);
      } else {
        CommitUnique(p, correct, s, c, r2, cv[k - 1], r1, cu[k - 1]);
      }
      assert cu[..k] == c + [cu[k - 1]] && cv[..k] == c + [cv[k - 1]];
    }
  }

  lemma PrefixShared(p: Params, correct: set<Address>, s: System, u: Address)
    requires FaultsLow(p, correct, s) && SystemInv(p, correct, s) && u in s.nodes
    ensures SharedPrefix(s, s.nodes[u].chain)
  {
    hide SystemInv;
    var c := s.nodes[u].chain;
    forall w | w in s.nodes && |c| <= |s.nodes[w].chain| ensures s.nodes[w].chain[..|c|] == c {
      ChainsAgree(p, correct, s, w, u, |c|);
    }
  }

  /** A majority for a block includes a correct validator, which has validated it. */
  lemma MajoritiesAreValid(p: Params, correct: set<Address>, s: System, u: Address)
    requires FaultsLow(p, correct, s) && SystemInv(p, correct, s) && u in s.nodes
    ensures MajoritiesValid(p, s.nodes[u].chain, s.log)
  {
    hide LogInv, LockRule, Inv, ValidID;
    var c := s.nodes[u].chain;
    PrefixShared(p, correct, s, u);
    LowAt(p, correct, s, u, |c|);
    assert c[..|c|] == c;
    forall r, t, b: BlockID | b.BlockID? && MajorityAfter(p, c, s.log, r, t, b) ensures ValidID(p, c, b) {
      var voters := VotersIn(s.log, p.initialHeight + |c|, r, t, b);
      QuorumHasCorrect(p.vals(c), voters, correct);
      var a :| a in voters && a in correct;
      var v := VoterVoted(s.log, p.initialHeight + |c|, r, t, b, a);
      CorrectVote(p, correct, s, c, v);
    }
  }

  //---------------------------------------------------------------------------
  // The invariant holds in every run

  lemma InitInv(p: Params, correct: set<Address>, s: System)
    requires FaultsLow(p, correct, s) && Init(p, correct, s)
    ensures SystemInv(p, correct, s)
  {
    hide Inv;
    forall u | u in correct ensures Inv(p, s.nodes[u], []) {
      LowAt(p, correct, s, u, 0);
      InitNodeInv(p, u);
    }
  }

  lemma SignInv(p: Params, correct: set<Address>, s: System, vote: Vote, s': System)
    requires SystemInv(p, correct, s) && Next(p, s, Sign(vote), s')
    ensures SystemInv(p, correct, s')
  {
    hide Inv, Justified;
    forall u | u in s.nodes ensures Inv(p, s'.nodes[u], s'.log) {
      InvMonotone(p, s.nodes[u], s.log, s'.log);
    }
    forall j, w | 0 <= j < |s'.log| && w in s'.log && w.validator == s'.log[j].validator && w.validator in s'.nodes
      ensures Justified(p, s'.nodes[w.validator].chain, s'.log[..j], w, s'.log[j])
    {
      assert j < |s.log| && s'.log[..j] == s.log[..j];
    }
  }

  lemma TurnNodes(p: Params, correct: set<Address>, s: System, u: Address, o: Oracle, e: Event, s': System)
    requires FaultsLow(p, correct, s) && SystemInv(p, correct, s) && Next(p, s, Turn(u, o, e), s')
    ensures NodesInv(p, s') && LogInv(s') && Progress(p, s.nodes[u], s'.nodes[u], s.log)
  {
    hide Inv, Handle, LockRule, FaultsLow;
    var n, m := s.nodes[u], s'.nodes[u];
    MajoritiesAreValid(p, correct, s, u);
    hide MajoritiesValid;
    HandleStep(p, o, n, e, s.log);
    hide Deliverable;
    assert m.id == n.id && m.sent == n.sent + m.sent[|n.sent|..];
    SentBySelf(p, m, s.log);
    forall w | w in s'.nodes ensures Inv(p, s'.nodes[w], s'.log) {
      InvMonotone(p, s'.nodes[w], s.log, s'.log);
    }
  }

  lemma SentBySelf(p: Params, n: Node, log: seq<Vote>)
    requires Inv(p, n, log)
    ensures forall v :: v in n.sent ==> v.validator == n.id
  {
    hide BasicInv, BlocksInv, LockInv, ValidBlockInv, CommitInv, LockHistory, Backed, TimeoutsInv, SentGrounded;
    hide Decided;
  }

  /** A precommit that a node signs after a prevote cannot speak against that prevote. */
  lemma LaterPrecommitVacuous(p: Params, chain: seq<BlockID>, log: seq<Vote>, w: Vote, v: Vote)
    requires InOrder(v, w)
    ensures Justified(p, chain, log, w, v)
  {
  }

  lemma TurnJustified(p: Params, n: Node, m: Node, log: seq<Vote>, before: seq<Vote>, w: Vote, i: nat)
    requires Inv(p, m, log) && Progress(p, n, m, log)
    requires |n.sent| <= i < |m.sent| && w in m.sent && (forall v :: v in log ==> v in before)
    ensures Justified(p, m.chain, before, w, m.sent[i])
  {
    hide BasicInv, BlocksInv, LockInv, ValidBlockInv, CommitInv, LockHistory, Backed, TimeoutsInv, SentGrounded;
    hide Decided;
    hide VotesGrow, LockKept, InOrder;
    var j :| 0 <= j < |m.sent| && m.sent[j] == w;
    if i < j {
      LaterPrecommitVacuous(p, m.chain, before, w, m.sent[i]);
    } else if j < i {
      hide Justified;
      JustifiedMonotone(p, m.chain, log, before, w, m.sent[i]);
    }
  }

  lemma TurnOldJustified(p: Params, n: Node, m: Node, log: seq<Vote>, before: seq<Vote>, w: Vote, v: Vote)
    requires Inv(p, n, log) && Inv(p, m, log) && Progress(p, n, m, log) && v in n.sent && w in m.sent
    requires w in n.sent ==> Justified(p, n.chain, before, w, v)
    ensures Justified(p, m.chain, before, w, v)
  {
    hide BlocksInv, LockInv, ValidBlockInv, CommitInv, LockHistory, Backed, TimeoutsInv, SentGrounded, Decided;
    hide VotesGrow, LockKept, NewVotesJustified, MajorityAfter;
    var i :| 0 <= i < |n.sent| && n.sent[i] == v;
    var j :| 0 <= j < |m.sent| && m.sent[j] == w;
    if j < |n.sent| {
      assert SentBefore(p, n.id, n.sent[i], n.rs.height, n.rs.round, n.rs.step);
      assert Below(p, m.chain, v.height) == Below(p, n.chain, v.height);
    } else {
      assert InOrder(m.sent[i], m.sent[j]);
      LaterPrecommitVacuous(p, m.chain, before, w, v);
    }
  }

  lemma TurnLockRule(p: Params, correct: set<Address>, s: System, u: Address, o: Oracle, e: Event, s': System)
    requires FaultsLow(p, correct, s) && SystemInv(p, correct, s) && Next(p, s, Turn(u, o, e), s')
    ensures LockRule(p, s')
  {
    hide Inv, Handle, Progress, Justified, FaultsLow, Deliverable;
    TurnNodes(p, correct, s, u, o, e, s');
    var n, m := s.nodes[u], s'.nodes[u];
    HandleStepOld(p, correct, s, u, o, e, s');
    forall j, w | 0 <= j < |s'.log| && w in s'.log && w.validator == s'.log[j].validator && w.validator in s'.nodes
      ensures Justified(p, s'.nodes[w.validator].chain, s'.log[..j], w, s'.log[j])
    {
      if j < |s.log| {
        assert s'.log[..j] == s.log[..j] && s'.log[j] == s.log[j];
        if w.validator == u {
          TurnOldJustified(p, n, m, s.log, s.log[..j], w, s.log[j]);
        } else {
          assert w in s.nodes[w.validator].sent;
        }
      } else {
        var i := |n.sent| + j - |s.log|;
        assert s'.log[j] == m.sent[i];
        assert m.sent[i].validator == u by { SentBySelf(p, m, s.log); }
        assert s'.log[..j][..|s.log|] == s.log;
        TurnJustified(p, n, m, s.log, s'.log[..j], w, i);
      }
    }
  }

  lemma HandleStepOld(p: Params, correct: set<Address>, s: System, u: Address, o: Oracle, e: Event, s': System)
    requires FaultsLow(p, correct, s) && SystemInv(p, correct, s) && Next(p, s, Turn(u, o, e), s')
    ensures Inv(p, s'.nodes[u], s.log)
  {
    hide Inv, Handle, LockRule, FaultsLow, LogInv;
    MajoritiesAreValid(p, correct, s, u);
    hide MajoritiesValid;
    HandleStep(p, o, s.nodes[u], e, s.log);
  }

  lemma NextInv(p: Params, correct: set<Address>, s: System, a: Action, s': System)
    requires FaultsLow(p, correct, s) && SystemInv(p, correct, s) && Next(p, s, a, s')
    ensures SystemInv(p, correct, s')
  {
    match a
    case Turn(u, o, e) =>
      hide NodesInv, LogInv, LockRule, FaultsLow, Handle, Deliverable;
      TurnNodes(p, correct, s, u, o, e, s');
      TurnLockRule(p, correct, s, u, o, e, s');
    case Sign(vote) =>
      hide NodesInv, LogInv, LockRule, FaultsLow;
      SignInv(p, correct, s, vote, s');
  }

  lemma {:induction false} RunInv(p: Params, correct: set<Address>, run: seq<System>, acts: seq<Action>, i: nat)
    requires FaultAssumption(p, correct, run) && IsRun(p, correct, run, acts) && i < |run|
    ensures SystemInv(p, correct, run[i])
  {
    hide SystemInv, Next, FaultsLow, Init;
    if i == 0 {
      InitInv(p, correct, run[0]);
    } else {
      RunInv(p, correct, run, acts, i - 1);
      NextInv(p, correct, run[i - 1], acts[i - 1], run[i]);
    }
  }

  /**
    Agreement. In every run with less than a third of faulty power, whatever the
    interleaving and whatever rounds blocks were committed in, two correct nodes
    that have both finalized a height have finalized the same block there.
  */
  lemma Agreement(p: Params, correct: set<Address>, run: seq<System>, acts: seq<Action>, i: nat, u: Address, v: Address,
                  k: nat)
    requires FaultAssumption(p, correct, run) && IsRun(p, correct, run, acts) && i < |run|
    requires u in run[i].nodes && v in run[i].nodes
    requires k < |run[i].nodes[u].chain| && k < |run[i].nodes[v].chain|
    ensures run[i].nodes[u].chain[k] == run[i].nodes[v].chain[k]
  {
    hide SystemInv, FaultsLow, IsRun;
    RunInv(p, correct, run, acts, i);
    var s := run[i];
    ChainsAgree(p, correct, s, u, v, k + 1);
    assert s.nodes[u].chain[..k + 1][k] == s.nodes[v].chain[..k + 1][k];
  }

  //---------------------------------------------------------------------------
  // Other guarantees of every run

  lemma RunNode(p: Params, correct: set<Address>, run: seq<System>, acts: seq<Action>, i: nat, u: Address)
    requires FaultAssumption(p, correct, run) && IsRun(p, correct, run, acts) && i < |run| && u in run[i].nodes
    ensures Inv(p, run[i].nodes[u], run[i].log)
  {
    hide FaultAssumption, IsRun, LogInv, LockRule, Inv;
    RunInv(p, correct, run, acts, i);
  }

  /** No correct node ever reaches one of the implementation's panics, and all it finalizes is valid. */
  lemma NoPanicAndValidity(p: Params, correct: set<Address>, run: seq<System>, acts: seq<Action>, i: nat, u: Address)
    requires FaultAssumption(p, correct, run) && IsRun(p, correct, run, acts) && i < |run| && u in run[i].nodes
    ensures var n := run[i].nodes[u];
      && !n.panicked
      && n.rs.height == p.initialHeight + |n.chain|
      && forall k :: 0 <= k < |n.chain| ==> ValidID(p, n.chain[..k], n.chain[k])
  {
    hide FaultAssumption, IsRun, BlocksInv, LockInv, ValidBlockInv, CommitInv, SentInv, LockHistory, SentGrounded;
    hide Backed, TimeoutsInv;
    hide ValidID, MajorityAfter;
    RunNode(p, correct, run, acts, i, u);
    var n := run[i].nodes[u];
    forall k | 0 <= k < |n.chain| ensures ValidID(p, n.chain[..k], n.chain[k]) {
      assert DecidedAt(p, n.chain, run[i].log, k);
    }
  }

  /** A block is held as proposal, lock or valid block only with the complete part set that decodes to it. */
  lemma HeldBlocksComplete(p: Params, correct: set<Address>, run: seq<System>, acts: seq<Action>, i: nat, u: Address)
    requires FaultAssumption(p, correct, run) && IsRun(p, correct, run, acts) && i < |run| && u in run[i].nodes
    ensures var rs := run[i].nodes[u].rs;
      forall block, parts :: (block, parts) in {(rs.proposalBlock, rs.proposalParts), (rs.lockedBlock, rs.lockedParts),
                                                (rs.validBlock, rs.validParts)} && block.Some? ==>
        parts.Some? && IsComplete(parts.value) && p.decode(parts.value.header) == block
  {
    hide FaultAssumption, IsRun, BasicInv, LockInv, ValidBlockInv, CommitInv, SentInv, LockHistory, SentGrounded;
    hide Backed, TimeoutsInv, Decided;
    RunNode(p, correct, run, acts, i, u);
  }

  /** A locked block has a polka at the locked round, which is not ahead of the node's round. */
  lemma LockHasPolka(p: Params, correct: set<Address>, run: seq<System>, acts: seq<Action>, i: nat, u: Address)
    requires FaultAssumption(p, correct, run) && IsRun(p, correct, run, acts) && i < |run| && u in run[i].nodes
    requires run[i].nodes[u].rs.lockedBlock.Some?
    ensures var n := run[i].nodes[u];
      && 0 <= n.rs.lockedRound <= n.rs.round
      && MajorityAfter(p, n.chain, run[i].log, n.rs.lockedRound, Prevote, LockedID(n.rs))
      && (n.rs.lockedRound == n.rs.round ==> PRECOMMIT <= n.rs.step)
  {
    hide FaultAssumption, IsRun, BlocksInv, ValidBlockInv, CommitInv, SentInv, LockHistory, SentGrounded, TimeoutsInv;
    hide Decided, Backed;
    hide MajorityAfter;
    RunNode(p, correct, run, acts, i, u);
    var n := run[i].nodes[u];
    MajorityIsQuorum(p, n, run[i].log, n.rs.lockedRound, Prevote, LockedID(n.rs));
  }

  lemma RunProgress(p: Params, correct: set<Address>, run: seq<System>, acts: seq<Action>, i: nat, u: Address)
    requires FaultAssumption(p, correct, run) && IsRun(p, correct, run, acts) && i < |acts| && u in run[i].nodes
    ensures u in run[i + 1].nodes && Progress(p, run[i].nodes[u], run[i + 1].nodes[u], run[i].log)
  {
    hide FaultsLow, Progress, SystemInv, Handle, Deliverable, Init;
    RunInv(p, correct, run, acts, i);
    assert Next(p, run[i], acts[i], run[i + 1]);
    ProgressReflexive(p, run[i].nodes[u], run[i].log);
    if acts[i].Turn? && acts[i].u == u {
      TurnNodes(p, correct, run[i], u, acts[i].o, acts[i].e, run[i + 1]);
    }
  }

  /** The log has a polka for something other than `b` above round `low`, up to the node's round. */
  ghost predicate OtherPolkaAbove(p: Params, n: Node, log: seq<Vote>, low: int, b: BlockID) {
    exists r, c :: low < r <= n.rs.round && c != b && MajorityAfter(p, n.chain, log, r, Prevote, c)
  }

  /** A lock is dropped or replaced only if a polka for something else exists at a round above it. */
  lemma LockDroppedOnlyForPolka(p: Params, correct: set<Address>, run: seq<System>, acts: seq<Action>, i: nat,
                                u: Address)
    requires FaultAssumption(p, correct, run) && IsRun(p, correct, run, acts) && i < |acts| && u in run[i].nodes &&
      u in run[i + 1].nodes
    requires var n, m := run[i].nodes[u], run[i + 1].nodes[u];
      n.rs.lockedBlock.Some? && m.rs.height == n.rs.height && LockedID(m.rs) != LockedID(n.rs)
    ensures var n, m := run[i].nodes[u], run[i + 1].nodes[u];
      OtherPolkaAbove(p, m, run[i + 1].log, n.rs.lockedRound, LockedID(n.rs))
  {
    hide FaultAssumption, Next, Init, LockInv, ValidBlockInv, CommitInv, SentInv, LockHistory, SentGrounded;
    hide TimeoutsInv, Decided, Backed;
    hide MajorityAfter, NewVotesJustified, VotesGrow;
    RunProgress(p, correct, run, acts, i, u);
    RunNode(p, correct, run, acts, i, u);
    RunNode(p, correct, run, acts, i + 1, u);
    var n, m := run[i].nodes[u], run[i + 1].nodes[u];
    var r :| n.rs.lockedRound < r <= m.rs.round && PolkaAgainst(m.rs.votes, r, LockedID(n.rs));
    MajorityIsQuorum(p, m, run[i + 1].log, r, Prevote, TwoThirdsMajority(m.rs.votes, r, Prevote).value);
  }

  /** From any moment of a run to any later one, no node's (height, round) goes back, and what it signed stays. */
  lemma {:induction false} NeverGoesBack(p: Params, correct: set<Address>, run: seq<System>, acts: seq<Action>, i: nat,
                                         j: nat, u: Address)
    requires FaultAssumption(p, correct, run) && IsRun(p, correct, run, acts) && i <= j < |run| && u in run[i].nodes
    ensures u in run[j].nodes
    ensures var n, m := run[i].nodes[u], run[j].nodes[u];
      && NotAfter(n.rs.height, n.rs.round, m.rs.height, m.rs.round)
      && n.sent <= m.sent && n.chain <= m.chain
    decreases j
  {
    hide FaultAssumption, IsRun, VotesGrow, LockKept, NewVotesJustified;
    if i < j {
      NeverGoesBack(p, correct, run, acts, i, j - 1, u);
      assert |run| == |acts| + 1 by { RunLength(p, correct, run, acts); }
      RunProgress(p, correct, run, acts, j - 1, u);
    }
  }

  lemma RunLength(p: Params, correct: set<Address>, run: seq<System>, acts: seq<Action>)
    requires IsRun(p, correct, run, acts)
    ensures |run| == |acts| + 1
  {
  }

  /** No slot (height, round, type) is ever signed twice, and slots are signed in order. */
  lemma VoteOnce(p: Params, correct: set<Address>, run: seq<System>, acts: seq<Action>, i: nat, u: Address, a: nat,
                 b: nat)
    requires FaultAssumption(p, correct, run) && IsRun(p, correct, run, acts) && i < |run| && u in run[i].nodes
    requires a < b < |run[i].nodes[u].sent|
    ensures var v, w := run[i].nodes[u].sent[a], run[i].nodes[u].sent[b];
      && (v.height, v.round, v.kind) != (w.height, w.round, w.kind)
      && NotAfter(v.height, v.round, w.height, w.round)
  {
    hide FaultAssumption, IsRun, BlocksInv, LockInv, ValidBlockInv, CommitInv, LockHistory, SentGrounded, TimeoutsInv;
    hide Decided, Backed, BasicInv;
    RunNode(p, correct, run, acts, i, u);
    assert InOrder(run[i].nodes[u].sent[a], run[i].nodes[u].sent[b]);
  }
}
