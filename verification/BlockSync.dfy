/**
  Block sync as a whole: the goroutines that share the pool, interleaved between any two
  of their critical sections (blocksync/pool.go, blocksync/reactor.go).
*/
module BlockSync {
  import opened Power
  import opened BlockPool

  /** Where the reactor's sync loop is. */
  datatype Reactor =
    | Waiting
    | Peeked(first: Block, second: Block)     // looked at two blocks, and verifying them
    | Rejecting(second: Block)                // dropped the peer that sent the first block, but not yet the other
    | Popped(first: Block)                    // took the request out, and applying the block

  /** One critical section of one goroutine. */
  datatype Event =
    | SpawnerLooks                            // computes the next height to request
    | SpawnerMakes                            // makes a request for the height it computed
    | ReactorPeeks
    | ReactorRejects(now: int)                // the blocks do not verify: one peer goes, and then the other
    | ReactorPops
    | ReactorApplies
    | Delivers(id: PeerID, block: Block, commitHeight: Option<int>, now: int)
    | Reports(id: PeerID, base: int, height: int, now: int)
    | Leaves(id: PeerID)
    | TimesOut(id: PeerID)
    | Sweeps(rate: PeerID -> int, now: int)
    | Picks(h: int, ignore: Option<PeerID>, prev: Option<PeerID>, limit: int)
    | Assigns(h: int, id: PeerID)
    | Resets(h: int, id: PeerID)

  class Sync {
    const pool: Pool
    const initialHeight: int
    var lastBlockHeight: int                  // of the state, 0 at genesis
    var spawner: Option<int>                  // the height computed but not yet requested
    var reactor: Reactor

    /** The pool starts after the last block, or at the initial height of the chain. */
    constructor (lastBlockHeight: int, initialHeight: int)
      requires lastBlockHeight >= 0 && initialHeight >= 1
      ensures Coherent() && pool.MaxIsExact() && fresh(pool)
      ensures this.lastBlockHeight == lastBlockHeight && this.initialHeight == initialHeight
      ensures pool.startHeight == if lastBlockHeight == 0 then initialHeight else lastBlockHeight + 1
    {
      this.initialHeight := initialHeight;
      this.lastBlockHeight := lastBlockHeight;
      var start := lastBlockHeight + 1;
      if start == 1 {
        start := initialHeight;
      }
      pool := new Pool(start);
      spawner := None;
      reactor := Waiting;
    }

    /**
      After a state sync the pool, not yet started, is moved past the snapshot. The maximum then is right if and
      only if no higher peer came into range; the next pop and the next accepted report make it right.
    */
    method SwitchToBlockSync(height: int)
      requires Coherent() && height > 0 && pool.requesters == map[] && spawner == None && reactor == Waiting
      modifies this`lastBlockHeight, pool`height
      ensures Coherent() && lastBlockHeight == height && pool.height == height + 1
      ensures old(pool.MaxIsExact()) && old(pool.height) <= pool.height ==>
        (pool.MaxIsExact() <==> pool.NoHigherInRange(old(pool.height)))
    {
      lastBlockHeight := height;
      pool.SetHeight(height + 1);
    }

    /** A height that the spawner has computed is still the next one to request. */
    ghost predicate SpawnerInStep()
      reads this, pool
    {
      spawner.Some? ==> spawner.value == pool.height + |pool.requesters| && |pool.requesters| < MAX_REQUESTERS
    }

    /** The blocks that the reactor holds are the next ones after the state. */
    ghost predicate ReactorInStep()
      reads this, pool
    {
      && (if reactor.Popped? then pool.height == reactor.first.height + 1 else true)
      && (reactor.Peeked? ==>
            && reactor.first.height == pool.height && pool.height in pool.requesters
            && reactor.second.height == pool.height + 1)
      && (reactor.Rejecting? ==> reactor.second.height == pool.height + 1)
      && var next := if reactor.Popped? then pool.height - 1 else pool.height;
         next == if lastBlockHeight == 0 then initialHeight else lastBlockHeight + 1
    }

    ghost predicate Coherent()
      reads this, pool
    {
      && initialHeight >= 1 && lastBlockHeight >= 0
      && pool.Valid() && |pool.requesters| <= MAX_REQUESTERS
      && SpawnerInStep() && ReactorInStep()
    }

    /** A block for a height is there. */
    ghost predicate HasBlock(h: int)
      reads pool
    {
      h in pool.requesters && pool.requesters[h].block.Some?
    }

    ghost function BlockAt(h: int): Block
      requires HasBlock(h)
      reads pool
    {
      pool.requesters[h].block.value
    }

    /** The blocks for the next two heights are there. */
    ghost predicate NextTwo()
      reads pool
    {
      HasBlock(pool.height) && HasBlock(pool.height + 1)
    }

    /** The sync loop looks at the next two blocks; it panics if their heights are not the ones expected. */
    method ReactorPeek() returns (panicked: bool)
      requires Coherent() && reactor == Waiting
      modifies this`reactor
      ensures Coherent() && !panicked
      ensures reactor == if NextTwo() then Peeked(BlockAt(pool.height), BlockAt(pool.height + 1)) else Waiting
    {
      var first, second := pool.PeekTwoBlocks();
      if first == None || second == None {
        return false;
      }
      if lastBlockHeight > 0 && lastBlockHeight + 1 != first.value.height {
        return true;
      }
      if first.value.height + 1 != second.value.height {
        return true;
      }
      reactor := Peeked(first.value, second.value);
      return false;
    }

    /** The block is taken out of the pool; this panics if there is no request for it. */
    method ReactorPop() returns (panicked: bool)
      requires Coherent() && reactor.Peeked?
      modifies this`reactor, pool
      ensures Coherent() && pool.MaxIsExact() && !panicked && pool.height == old(pool.height) + 1
      ensures reactor == Popped(old(reactor).first)
      ensures pool.requesters == old(pool.requesters) - {old(pool.height)} && pool.peers == old(pool.peers)
    {
      hide IsMaxHeight, Distinct;
      var ok := pool.PopRequest();
      if !ok {
        return true;
      }
      reactor := Popped(reactor.first);
      return false;
    }

    /** A request is made for the height computed before; none is overwritten. */
    method SpawnerMake() returns (overwritten: bool)
      requires Coherent() && spawner.Some?
      modifies this`spawner, pool`requesters
      ensures Coherent() && !overwritten && pool.height == old(pool.height) && spawner == None
      ensures pool.requesters == old(pool.requesters)[old(spawner).value := NEW_REQUESTER]
      ensures old(pool.MaxIsExact()) ==> pool.MaxIsExact()
    {
      overwritten := spawner.value in pool.requesters;
      assert pool.requesters[spawner.value := NEW_REQUESTER].Keys == pool.requesters.Keys + {spawner.value};
      pool.MakeNextRequester(spawner.value);
      spawner := None;
    }

    /** A report of a range that is none, or that takes back an earlier one. */
    predicate Contradicts(e: Event)
      requires e.Reports?
      reads pool
    {
      || e.base > e.height
      || (e.id in pool.peers && (e.base < pool.peers[e.id].base || e.height < pool.peers[e.id].height))
    }

    /** A block that was requested from this peer and is not there yet. */
    predicate Wanted(e: Event)
      requires e.Delivers?
      reads pool
    {
      && (e.commitHeight == None || e.commitHeight.value == e.block.height)
      && e.block.height in pool.requesters
      && e.id in pool.requesters[e.block.height].requestedFrom && pool.requesters[e.block.height].block == None
    }

    /** A critical section about peers, which leaves the requests as they are. */
    method PeerStep(e: Event)
      requires Coherent()
      modifies pool`peers, pool`sortedPeers, pool`maxPeerHeight, pool`banned
      ensures Coherent() && (old(pool.MaxIsExact()) ==> pool.MaxIsExact())
      ensures e.Reports? && !old(Contradicts(e)) && !old(pool.IsBanned(e.id, e.now)) ==>
        e.id in pool.peers && pool.peers[e.id].base == e.base && pool.peers[e.id].height == e.height
      ensures (e.Reports? && old(Contradicts(e))) || e.Leaves? ==> pool.peers == old(pool.peers) - {e.id}
      ensures e.TimesOut? && e.id in old(pool.peers) ==>
        pool.peers == old(pool.peers)[e.id := old(pool.peers)[e.id].(didTimeout := true)]
      ensures e.Sweeps? ==> Swept(old(pool.peers), pool.peers, {}, e.rate)
      ensures e.Picks? ==> exists r :: Taken(old(pool.peers), pool.peers, e.h, e.ignore, e.limit, r)
    {
      hide IsMaxHeight, Distinct, Swept, Taken, PickFrom, ByRate, Without;
      match e {
        case Reports(id, base, height, now) =>
          pool.SetPeerRange(id, base, height, now);
        case Leaves(id) =>
          pool.RemovePeer(id);
        case TimesOut(id) =>
          pool.OnTimeout(id);
        case Sweeps(rate, now) =>
          pool.RemoveTimedoutPeers(rate, now);
        case Picks(h, ignore, prev, limit) =>
          var _ := pool.PickIncrAvailablePeer(h, ignore, prev, limit);
        case _ =>
      }
    }

    /** A critical section about one request, which leaves the others and their number as they are. */
    method RequestStep(e: Event)
      requires Coherent()
      modifies pool`requesters, pool`peers
      ensures Coherent() && (old(pool.MaxIsExact()) ==> pool.MaxIsExact())
      ensures e.Delivers? && old(Wanted(e)) ==>
        && HasBlock(e.block.height) && BlockAt(e.block.height) == e.block
        && pool.requesters[e.block.height].gotBlockFrom == Some(e.id)
      ensures e.Delivers? && !old(Wanted(e)) ==>
        forall h :: old(HasBlock(h)) <==> HasBlock(h)
      ensures e.Assigns? && e.h in pool.requesters ==>
        pool.requesters[e.h].current == Some(e.id) && e.id in pool.requesters[e.h].requestedFrom
      ensures e.Resets? && old(e.h in pool.requesters && pool.requesters[e.h].gotBlockFrom == Some(e.id)) ==>
        !HasBlock(e.h)
    {
      hide IsMaxHeight, Distinct;
      ghost var keys := pool.requesters.Keys;
      match e {
        case Delivers(id, block, commitHeight, now) =>
          var _ := pool.AddBlock(id, block, commitHeight, now);
        case Assigns(h, id) =>
          pool.AssignPeer(h, id);
        case Resets(h, id) =>
          pool.ResetRequester(h, id);
        case _ =>
      }
      assert pool.requesters.Keys == keys;
    }

    /** Two blocks that do not verify: the peer that sent the first one goes, and later the one that sent the second. */
    method ReactorReject(now: int) returns (sender: Option<PeerID>)
      requires Coherent() && (reactor.Peeked? || reactor.Rejecting?)
      modifies this`reactor, pool`peers, pool`sortedPeers, pool`maxPeerHeight, pool`banned
      ensures Coherent() && (old(pool.MaxIsExact()) ==> pool.MaxIsExact())
      ensures reactor == if old(reactor).Peeked? then Rejecting(old(reactor).second) else Waiting
      ensures var h := if old(reactor).Peeked? then pool.height else pool.height + 1;
        sender == if h in pool.requesters then pool.requesters[h].gotBlockFrom else None
      ensures pool.peers == if sender.Some? then old(pool.peers) - {sender.value} else old(pool.peers)
      ensures sender.Some? ==> sender.value !in pool.peers && pool.IsBanned(sender.value, now)
    {
      hide IsMaxHeight, Distinct;
      if reactor.Peeked? {
        sender := pool.RemovePeerAndRedoAllPeerRequests(reactor.first.height, now);
        reactor := Rejecting(reactor.second);
      } else {
        sender := pool.RemovePeerAndRedoAllPeerRequests(reactor.second.height, now);
        reactor := Waiting;
      }
    }

    /** The block is applied, and the state is at its height. */
    method ReactorApply()
      requires Coherent() && reactor.Popped?
      modifies this`reactor, this`lastBlockHeight
      ensures Coherent() && lastBlockHeight == old(reactor).first.height && reactor == Waiting
    {
      lastBlockHeight := reactor.first.height;
      reactor := Waiting;
    }

    /**
      One round of the sync loop on its own: with the next two blocks there, the first is applied if it verifies, and
      otherwise the peers that sent them go.
    */
    method TrySync(verifies: (Block, Block) -> bool, now: int) returns (panicked: bool)
      requires Coherent() && reactor == Waiting
      modifies this`reactor, this`lastBlockHeight, pool
      ensures Coherent() && !panicked && reactor == Waiting
      ensures if old(NextTwo() && verifies(BlockAt(pool.height), BlockAt(pool.height + 1)))
        then
          && lastBlockHeight == old(pool.height) && pool.height == old(pool.height) + 1
          && pool.requesters == old(pool.requesters) - {old(pool.height)}
        else
          && lastBlockHeight == old(lastBlockHeight) && pool.height == old(pool.height)
          && pool.requesters == old(pool.requesters)
      ensures old(NextTwo() && !verifies(BlockAt(pool.height), BlockAt(pool.height + 1))) ==>
        forall h :: h == pool.height || h == pool.height + 1 ==>
          h in pool.requesters && pool.requesters[h].gotBlockFrom.Some? &&
          pool.requesters[h].gotBlockFrom.value !in pool.peers
    {
      hide IsMaxHeight, Distinct;
      panicked := ReactorPeek();
      if panicked || reactor == Waiting {
        return;
      }
      if !verifies(reactor.first, reactor.second) {
        var _ := ReactorReject(now);
        var _ := ReactorReject(now);
        return;
      }
      panicked := ReactorPop();
      if panicked {
        return;
      }
      ReactorApply();
    }

    /** The spawner computes the next height to request, or makes the request. */
    method SpawnerStep(e: Event) returns (panicked: bool)
      requires Coherent()
      modifies this`spawner, pool`requesters
      ensures Coherent() && !panicked
      ensures e == SpawnerLooks ==> pool.requesters == old(pool.requesters)
      ensures e == SpawnerLooks && old(spawner) == None ==>
        spawner == if |pool.requesters| < 40 && pool.height + |pool.requesters| <= pool.maxPeerHeight
                   then Some(pool.height + |pool.requesters|) else None
      ensures e == SpawnerMakes && old(spawner).Some? ==>
        spawner == None && pool.requesters == old(pool.requesters)[old(spawner).value := NEW_REQUESTER]
    {
      panicked := false;
      if e == SpawnerLooks && spawner == None {
        spawner := pool.NextHeight();
      } else if e == SpawnerMakes && spawner.Some? {
        panicked := SpawnerMake();
      }
    }

    /** The sync loop does the next thing. */
    method ReactorStep(e: Event) returns (panicked: bool)
      requires Coherent()
      modifies this`reactor, this`lastBlockHeight, pool
      ensures Coherent() && !panicked
      ensures old(pool.MaxIsExact()) || old(pool.height) < pool.height ==> pool.MaxIsExact()
      ensures e == ReactorPeeks && old(reactor) == Waiting ==>
        reactor == if NextTwo() then Peeked(BlockAt(pool.height), BlockAt(pool.height + 1)) else Waiting
      ensures e == ReactorPops && old(reactor).Peeked? ==>
        reactor == Popped(old(reactor).first) && pool.height == old(pool.height) + 1
      ensures e == ReactorApplies && old(reactor).Popped? ==> reactor == Waiting
      ensures lastBlockHeight ==
        if e == ReactorApplies && old(reactor).Popped? then old(reactor).first.height else old(lastBlockHeight)
      ensures pool.height == old(pool.height) || (e == ReactorPops && pool.height == old(pool.height) + 1)
    {
      hide IsMaxHeight, Distinct;
      panicked := false;
      match e {
        case ReactorPeeks =>
          if reactor == Waiting {
            panicked := ReactorPeek();
          }
        case ReactorRejects(now) =>
          if reactor.Peeked? || reactor.Rejecting? {
            var _ := ReactorReject(now);
          }
        case ReactorPops =>
          if reactor.Peeked? {
            panicked := ReactorPop();
          }
        case ReactorApplies =>
          if reactor.Popped? {
            ReactorApply();
          }
        case _ =>
      }
    }

    /** Any goroutine's next critical section. */
    method Step(e: Event) returns (panicked: bool)
      requires Coherent()
      modifies this`spawner, this`reactor, this`lastBlockHeight, pool
      ensures Coherent() && !panicked
      ensures old(pool.MaxIsExact()) || old(pool.height) < pool.height ==> pool.MaxIsExact()
      ensures pool.height == old(pool.height) || (e == ReactorPops && pool.height == old(pool.height) + 1)
      ensures e == ReactorPeeks && old(reactor) == Waiting && NextTwo() ==> reactor.Peeked?
      ensures e == ReactorPops && old(reactor).Peeked? ==> reactor == Popped(old(reactor).first)
      ensures lastBlockHeight ==
        if e == ReactorApplies && old(reactor).Popped? then old(reactor).first.height else old(lastBlockHeight)
      ensures e.Delivers? && old(Wanted(e)) ==> HasBlock(e.block.height) && BlockAt(e.block.height) == e.block
    {
      hide IsMaxHeight, Distinct, Swept, Taken, Contradicts, Wanted;
      panicked := false;
      match e {
        case SpawnerLooks | SpawnerMakes =>
          panicked := SpawnerStep(e);
        case ReactorPeeks | ReactorRejects(_) | ReactorPops | ReactorApplies =>
          panicked := ReactorStep(e);
        case Delivers(_, _, _, _) | Assigns(_, _) | Resets(_, _) =>
          RequestStep(e);
        case _ =>
          PeerStep(e);
      }
    }

    /** Whatever the interleaving: no panic, requests for a run of at most 40 heights, and an exact maximum. */
    method Run(events: seq<Event>) returns (panicked: bool)
      requires Coherent()
      modifies this`spawner, this`reactor, this`lastBlockHeight, pool
      ensures Coherent() && !panicked
      ensures pool.Contiguous() && |pool.requesters| <= MAX_REQUESTERS
      ensures old(pool.MaxIsExact()) || old(pool.height) < pool.height ==> pool.MaxIsExact()
    {
      hide IsMaxHeight;
      panicked := false;
      for i := 0 to |events|
        invariant Coherent() && !panicked
        invariant old(pool.height) <= pool.height
        invariant old(pool.MaxIsExact()) || old(pool.height) < pool.height ==> pool.MaxIsExact()
      {
        panicked := Step(events[i]);
        if panicked {
          return;
        }
      }
    }
  }
}
