/**
  Crash recovery: how finalizeCommit and the ABCI handshake move the application, the
  block store and the state (consensus/replay.go, consensus/state.go, state/execution.go),
  and why a crash between any two writes is recovered from.
*/
module Recovery {
  import opened Power

  type Hash = seq<nat>

  datatype Block = Block(height: nat, appHash: Hash, data: nat)

  /** The genesis document and the application, which is deterministic. */
  datatype Env = Env(
    initialHeight: nat,
    genesisHash: Hash,                 // the app hash of the genesis document
    initChainHash: Hash,               // what the application returns for InitChain, possibly empty
    appHash: seq<Block> -> Hash,       // what it returns after executing these blocks
    retain: seq<Block> -> nat)         // and the height that it asks to retain

  /** What survives a crash. */
  datatype Disk = Disk(
    app: seq<Block>,                   // blocks that the application has committed
    store: seq<Block>,                 // blocks ever saved, of which the first `pruned` are gone
    pruned: nat,
    applied: nat,                      // number of blocks that the saved state is ahead of genesis
    stateHash: Hash,
    response: Option<(nat, Hash)>)     // height and app hash of the last saved FinalizeBlock response

  /** The height after a number of blocks; 0 at genesis. */
  function HeightOf(env: Env, blocks: nat): nat {
    if blocks == 0 then 0 else env.initialHeight + blocks - 1
  }

  function GenesisAppHash(env: Env): Hash {
    if env.initChainHash != [] then env.initChainHash else env.genesisHash
  }

  ghost function HashAfter(env: Env, blocks: seq<Block>): Hash {
    if blocks == [] then GenesisAppHash(env) else env.appHash(blocks)
  }

  //---------------------------------------------------------------------------
  // The writes, and the crashes between them

  /** A block that follows a chain of blocks. */
  ghost predicate Follows(env: Env, blocks: seq<Block>, b: Block) {
    b.height == env.initialHeight + |blocks| && b.appHash == HashAfter(env, blocks)
  }

  /** The application, the store and the state are all at one height. */
  ghost predicate Synced(env: Env, d: Disk) {
    d.app == d.store && d.applied == |d.store| && d.stateHash == HashAfter(env, d.store)
  }

  ghost predicate SavesGenesis(env: Env, d: Disk, e: Disk) {
    d.app == [] && d.applied == 0 && e == d.(stateHash := GenesisAppHash(env))
  }

  ghost predicate SavesBlock(env: Env, d: Disk, e: Disk) {
    Synced(env, d) && exists b :: Follows(env, d.store, b) && e == d.(store := d.store + [b])
  }

  ghost predicate SavesResponse(env: Env, d: Disk, e: Disk) {
    && |d.store| == d.applied + 1 && |d.app| >= d.applied
    && e == d.(response := Some((HeightOf(env, |d.store|), env.appHash(d.store))))
  }

  ghost predicate CommitsApp(env: Env, d: Disk, e: Disk) {
    && d.pruned <= |d.app| < |d.store|
    && (|d.app| < d.applied || d.response == Some((HeightOf(env, |d.store|), env.appHash(d.store))))
    && e == d.(app := d.app + [d.store[|d.app|]])
  }

  ghost predicate SavesState(env: Env, d: Disk, e: Disk) {
    && d.app == d.store && |d.store| == d.applied + 1
    && e == d.(applied := |d.store|, stateHash := env.appHash(d.store))
  }

  ghost predicate Prunes(env: Env, d: Disk, e: Disk) {
    Synced(env, d) && d.pruned <= e.pruned < |d.store| && e == d.(pruned := e.pruned)
  }

  /** One write of a running node. */
  ghost predicate Writes(env: Env, d: Disk, e: Disk) {
    || SavesGenesis(env, d, e)
    || SavesBlock(env, d, e)
    || SavesResponse(env, d, e)
    || CommitsApp(env, d, e)
    || SavesState(env, d, e)
    || Prunes(env, d, e)
  }

  /** The application comes back with fewer blocks than it had committed. */
  ghost predicate AppLoses(d: Disk, e: Disk) {
    |e.app| <= |d.app| && e == d.(app := d.app[..|e.app|])
  }

  ghost predicate Genesis(env: Env, d: Disk) {
    d == Disk([], [], 0, 0, env.genesisHash, None)
  }

  /** A node's life: writes, with crashes that may cost the application any number of blocks. */
  ghost predicate IsHistory(env: Env, h: seq<Disk>) {
    && h != [] && Genesis(env, h[0])
    && forall i :: 0 <= i < |h| - 1 ==> Writes(env, h[i], h[i + 1]) || AppLoses(h[i], h[i + 1])
  }

  //---------------------------------------------------------------------------
  // What every crash leaves behind

  ghost predicate StoreInv(env: Env, d: Disk) {
    && d.applied <= |d.store| <= d.applied + 1
    && (d.pruned == 0 || d.pruned < d.applied)
    && forall i :: 0 <= i < |d.store| ==> Follows(env, d.store[..i], d.store[i])
  }

  ghost predicate StateInv(env: Env, d: Disk)
    requires d.applied <= |d.store|
  {
    || d.stateHash == HashAfter(env, d.store[..d.applied])
    || (d.store == [] && d.stateHash == env.genesisHash)
  }

  /** The application is not ahead, and if it is one ahead of the state then its response was saved. */
  ghost predicate AppInv(env: Env, d: Disk) {
    && d.app <= d.store
    && (|d.app| > d.applied ==> d.response == Some((HeightOf(env, |d.store|), env.appHash(d.store))))
  }

  ghost predicate Recoverable(env: Env, d: Disk) {
    StoreInv(env, d) && StateInv(env, d) && AppInv(env, d)
  }

  lemma WriteKeepsStore(env: Env, d: Disk, e: Disk)
    requires Recoverable(env, d) && Writes(env, d, e)
    ensures StoreInv(env, e)
  {
    if SavesBlock(env, d, e) {
      forall i | 0 <= i < |e.store| ensures Follows(env, e.store[..i], e.store[i]) {
        assert e.store[..i] == d.store[..i];
        assert i == |d.store| ==> d.store[..i] == d.store;
      }
    }
  }

  lemma WriteKeepsRecoverable(env: Env, d: Disk, e: Disk)
    requires Recoverable(env, d) && (Writes(env, d, e) || AppLoses(d, e))
    ensures Recoverable(env, e)
  {
    if Writes(env, d, e) {
      WriteKeepsStore(env, d, e);
      assert e.store[..d.applied] == d.store[..d.applied];
      assert d.store[..|d.store|] == d.store;
    }
  }

  /** A crash at any point of any life leaves a disk that can be recovered. */
  lemma {:induction false} HistoryRecoverable(env: Env, h: seq<Disk>, i: nat)
    requires IsHistory(env, h) && i < |h|
    ensures Recoverable(env, h[i])
  {
    hide Recoverable, Writes, AppLoses;
    if i == 0 {
      GenesisRecoverable(env, h[0]);
    } else {
      HistoryRecoverable(env, h, i - 1);
      assert Writes(env, h[i - 1], h[i - 1 + 1]) || AppLoses(h[i - 1], h[i - 1 + 1]);
      WriteKeepsRecoverable(env, h[i - 1], h[i]);
    }
  }

  lemma GenesisRecoverable(env: Env, d: Disk)
    requires Genesis(env, d)
    ensures Recoverable(env, d)
  {
  }

  //---------------------------------------------------------------------------
  // The handshake

  datatype Outcome =
    | InStep
    | AppTooLow | AppTooHigh
    | HashPanic | GapPanic | UncoveredPanic
    | InvalidBlock | NoResponse

  /** What a node wrote since it started. */
  ghost predicate IsTrail(env: Env, trail: seq<Disk>) {
    trail != [] && forall i :: 0 <= i < |trail| - 1 ==> Writes(env, trail[i], trail[i + 1])
  }

  lemma TrailExtends(env: Env, trail: seq<Disk>, d: Disk)
    requires IsTrail(env, trail) && Writes(env, trail[|trail| - 1], d)
    ensures IsTrail(env, trail + [d])
  {
    hide Writes;
    var longer := trail + [d];
    forall i | 0 <= i < |longer| - 1 ensures Writes(env, longer[i], longer[i + 1]) {
      assert i < |trail| - 1 ==> longer[i + 1] == trail[i + 1];
    }
  }

  /** A node that starts where an earlier life ended, and crashes after any write, continues that life. */
  lemma LifeGoesOn(env: Env, h: seq<Disk>, trail: seq<Disk>, crash: nat)
    requires IsHistory(env, h) && IsTrail(env, trail) && trail[0] == h[|h| - 1] && 0 < crash <= |trail|
    ensures IsHistory(env, h + trail[1..crash])
  {
    hide Writes, AppLoses, Genesis;
    var longer := h + trail[1..crash];
    forall i | 0 <= i < |longer| - 1 ensures Writes(env, longer[i], longer[i + 1]) ||
      AppLoses(longer[i], longer[i + 1]) {
      if i >= |h| - 1 {
        var j := i - (|h| - 1);
        assert longer[i] == trail[j] && longer[i + 1] == trail[j + 1];
      } else {
        assert longer[i + 1] == h[i + 1];
      }
    }
  }

  /** The next block that the application is missing carries the application's present hash. */
  lemma NextBlock(env: Env, d: Disk)
    requires Recoverable(env, d) && |d.app| < |d.store|
    ensures d.app != [] ==> d.store[|d.app|].appHash == env.appHash(d.app)
  {
    assert Follows(env, d.store[..|d.app|], d.store[|d.app|]) && d.store[..|d.app|] == d.app;
  }

  /** The last block of the store, when it alone is missing from the state. */
  lemma LastBlock(env: Env, d: Disk)
    requires Recoverable(env, d) && |d.store| == d.applied + 1
    ensures d.store[d.applied].height == HeightOf(env, |d.store|) && d.pruned <= d.applied
    ensures |d.app| == d.applied ==> d.app + [d.store[d.applied]] == d.store
  {
    assert Follows(env, d.store[..d.applied], d.store[d.applied]);
  }

  lemma CaughtUp(env: Env, d: Disk)
    requires Recoverable(env, d) && |d.app| == |d.store| == d.applied > 0
    ensures Synced(env, d) && d.stateHash == env.appHash(d.app)
  {
    assert d.store[..d.applied] == d.store == d.app;
  }

  /** An application that is ahead of the store, which no write of ours leads to. */
  ghost predicate AppAhead(env: Env, d: Disk) {
    StoreInv(env, d) && StateInv(env, d) && d.store < d.app
  }

  /** What the handshake comes to, by what it finds on the disk. */
  ghost function Expected(env: Env, d: Disk): Outcome {
    if d.store == [] then
      (if d.app == [] then
         if env.initChainHash == [] && env.genesisHash != [] then HashPanic else InStep
       else
         if env.appHash(d.app) == d.stateHash then InStep else HashPanic)
    else if |d.app| < d.pruned then AppTooLow
    else if |d.app| > |d.store| then AppTooHigh
    else if d.applied == 0 && env.initialHeight > 1 then GapPanic
    else InStep
  }

  /** How many blocks are gone once the application has committed these: those below the height it asks to retain. */
  ghost function PrunedTo(env: Env, blocks: seq<Block>, pruned: nat): nat {
    var retain := env.retain(blocks);
    if env.initialHeight + pruned < retain < env.initialHeight + |blocks| then retain - env.initialHeight else pruned
  }

  ghost function LastResponse(env: Env, blocks: seq<Block>): Option<(nat, Hash)> {
    Some((HeightOf(env, |blocks|), env.appHash(blocks)))
  }

  /**
    What a handshake that succeeds makes of a disk. The last block is applied if the state lacks it; pruning comes
    with it, unless the application has committed that block already.
  */
  ghost function Recovered(env: Env, d: Disk): Disk {
    var lags := |d.store| == d.applied + 1;
    Disk(d.store, d.store, if lags && |d.app| <= d.applied then PrunedTo(env, d.store, d.pruned) else d.pruned,
         |d.store|, HashAfter(env, d.store), if lags then LastResponse(env, d.store) else d.response)
  }

  /** An application that loses nothing is never too far behind for the handshake. */
  lemma {:induction false} LosslessNeverTooLow(env: Env, trail: seq<Disk>, i: nat)
    requires IsTrail(env, trail) && Genesis(env, trail[0]) && i < |trail|
    ensures trail[i].pruned <= trail[i].applied <= |trail[i].app|
    ensures Expected(env, trail[i]) != AppTooLow && Expected(env, trail[i]) != AppTooHigh
  {
    hide HeightOf, HashAfter, GenesisAppHash;
    LifeGoesOn(env, [trail[0]], trail, i + 1);
    var h := [trail[0]] + trail[1..i + 1];
    assert h[i] == trail[i];
    HistoryRecoverable(env, h, i);
    if i > 0 {
      LosslessNeverTooLow(env, trail, i - 1);
      assert Writes(env, trail[i - 1], trail[i - 1 + 1]);
    }
  }

  /** Not every crash is recovered from: the first block of a chain that starts above height 1 is not. */
  lemma FirstBlockNotRecovered(env: Env, data: nat) returns (h: seq<Disk>)
    requires env.initialHeight > 1
    ensures IsHistory(env, h) && Expected(env, h[|h| - 1]) == GapPanic
  {
    var d0 := Disk([], [], 0, 0, env.genesisHash, None);
    var d1 := d0.(stateHash := GenesisAppHash(env));
    var b := Block(env.initialHeight, GenesisAppHash(env), data);
    var d2 := d1.(store := [b]);
    assert SavesGenesis(env, d0, d1);
    assert Follows(env, d1.store, b) && d2 == d1.(store := d1.store + [b]);
    h := [d0, d1, d2];
  }

  class Node {
    const env: Env
    var disk: Disk
    ghost var trail: seq<Disk>          // every content of the disk so far
    ghost var executed: seq<Block>      // every block that the real application was made to execute

    constructor (env: Env, disk: Disk)
      ensures this.env == env && this.disk == disk && Traced() && executed == []
    {
      this.env := env;
      this.disk := disk;
      this.trail := [disk];
      this.executed := [];
    }

    /** The trail is a run of writes that ends in the present disk. */
    ghost predicate Traced()
      reads this
    {
      IsTrail(env, trail) && trail[|trail| - 1] == disk
    }

    /** One write. */
    method Put(d: Disk)
      requires Traced() && Writes(env, disk, d) && Recoverable(env, disk)
      modifies this`disk, this`trail
      ensures Traced() && disk == d && old(trail) <= trail && Recoverable(env, disk)
    {
      WriteKeepsRecoverable(env, disk, d);
      TrailExtends(env, trail, d);
      disk := d;
      trail := trail + [d];
    }

    method SaveFinalizeBlockResponse(height: nat, hash: Hash)
      requires Traced() && Recoverable(env, disk)
      requires SavesResponse(env, disk, disk.(response := Some((height, hash))))
      modifies this`disk, this`trail
      ensures Traced() && old(trail) <= trail && Recoverable(env, disk)
      ensures disk == old(disk).(response := Some((height, hash)))
    {
      hide SavesResponse, Recoverable, IsTrail;
      Put(disk.(response := Some((height, hash))));
    }

    /** The application commits the block it has just executed. */
    method CommitApp(block: Block)
      requires Traced() && Recoverable(env, disk) && CommitsApp(env, disk, disk.(app := disk.app + [block]))
      modifies this`disk, this`trail
      ensures Traced() && old(trail) <= trail && Recoverable(env, disk)
      ensures disk == old(disk).(app := old(disk).app + [block])
    {
      hide CommitsApp, Recoverable, IsTrail;
      Put(disk.(app := disk.app + [block]));
    }

    method SaveState(hash: Hash)
      requires Traced() && Recoverable(env, disk)
      requires SavesState(env, disk, disk.(applied := disk.applied + 1, stateHash := hash))
      modifies this`disk, this`trail
      ensures Traced() && old(trail) <= trail && Recoverable(env, disk)
      ensures disk == old(disk).(applied := old(disk).applied + 1, stateHash := hash)
    {
      hide SavesState, Recoverable, IsTrail;
      Put(disk.(applied := disk.applied + 1, stateHash := hash));
    }

    /** Drops the blocks below the height that the application asks to retain, if there are that many. */
    method PruneBlocks(retain: nat)
      requires Traced() && Recoverable(env, disk) && Synced(env, disk)
      modifies this`disk, this`trail
      ensures Traced() && old(trail) <= trail && Recoverable(env, disk)
      ensures Synced(env, disk) && disk == old(disk).(pruned := disk.pruned)
      ensures disk.pruned ==
        if env.initialHeight + old(disk.pruned) < retain < env.initialHeight + |disk.store|
        then retain - env.initialHeight
        else old(disk.pruned)
    {
      if env.initialHeight + disk.pruned < retain < env.initialHeight + |disk.store| {
        var d := disk.(pruned := retain - env.initialHeight);
        assert Prunes(env, disk, d);
        Put(d);
      }
    }

    /**
      Executes and commits the last block of the store and saves the state. A mock
      application stands in with the saved response when the real one has committed already.
    */
    method ApplyBlock(mock: Option<Hash>)
      requires Traced() && Recoverable(env, disk) && |disk.store| == disk.applied + 1
      requires if mock == None then |disk.app| == disk.applied
        else disk.app == disk.store && mock.value == env.appHash(disk.store)
      modifies this
      ensures Traced() && old(trail) <= trail && Recoverable(env, disk)
      ensures Synced(env, disk) && disk.store == old(disk.store)
      ensures disk == Recovered(env, old(disk))
      ensures executed == old(executed) + (if mock == None then [disk.store[|disk.store| - 1]] else [])
    {
      hide IsTrail, Recoverable, Writes;
      var block := disk.store[|disk.store| - 1];
      LastBlock(env, disk);
      var hash;
      if mock == None {
        executed := executed + [block];
        hash := env.appHash(disk.app + [block]);
      } else {
        hash := mock.value;
      }
      SaveFinalizeBlockResponse(block.height, hash);
      if mock == None {
        CommitApp(block);
      }
      SaveState(hash);
      if mock == None {
        PruneBlocks(env.retain(disk.app));
      }
    }

    /** The last steps of a height: the decided block is saved first, then applied. */
    method FinalizeCommit(block: Block)
      requires Traced() && Recoverable(env, disk) && Synced(env, disk) && Follows(env, disk.store, block)
      modifies this
      ensures Traced() && old(trail) <= trail && Recoverable(env, disk)
      ensures Synced(env, disk) && disk.store == old(disk.store) + [block]
      ensures disk == Recovered(env, old(disk).(store := disk.store))
      ensures executed == old(executed) + [block]
    {
      hide IsTrail, Recoverable;
      assert SavesBlock(env, disk, disk.(store := disk.store + [block]));
      Put(disk.(store := disk.store + [block]));
      ApplyBlock(None);
    }

    /** Validates the last block of the store against the state and applies it. */
    method ReplayBlock(mock: Option<Hash>) returns (r: Outcome)
      requires Traced() && Recoverable(env, disk) && |disk.store| == disk.applied + 1
      requires if mock == None then |disk.app| == disk.applied
        else disk.app == disk.store && mock.value == env.appHash(disk.store)
      modifies this
      ensures Traced() && old(trail) <= trail && Recoverable(env, disk)
      ensures r == InStep && Synced(env, disk) && disk.store == old(disk.store)
      ensures disk == Recovered(env, old(disk))
      ensures executed == old(executed) + (if mock == None then [disk.store[|disk.store| - 1]] else [])
    {
      var block := disk.store[|disk.store| - 1];
      var next := if disk.applied == 0 then env.initialHeight else HeightOf(env, disk.applied) + 1;
      if block.height != next || block.appHash != disk.stateHash {
        return InvalidBlock;
      }
      ApplyBlock(mock);
      return InStep;
    }

    /** Executes and commits one block on the application, by-passing the state. */
    method ExecCommitBlock(block: Block) returns (hash: Hash)
      requires Traced() && Recoverable(env, disk)
      requires disk.pruned <= |disk.app| < disk.applied && block == disk.store[|disk.app|]
      modifies this
      ensures Traced() && old(trail) <= trail && Recoverable(env, disk)
      ensures disk == old(disk).(app := old(disk).app + [block]) && executed == old(executed) + [block]
      ensures hash == env.appHash(disk.app)
    {
      executed := executed + [block];
      CommitApp(block);
      hash := env.appHash(disk.app);
    }

    /** Replays the blocks that the application is missing, the last one through the state if that lags too. */
    method ReplayBlocks(mutateState: bool) returns (r: Outcome)
      requires Traced() && Recoverable(env, disk) && env.initialHeight >= 1
      requires disk.pruned <= |disk.app| < disk.applied && |disk.store| == disk.applied + (if mutateState then 1 else 0)
      modifies this
      ensures Traced() && old(trail) <= trail && Recoverable(env, disk)
      ensures r == InStep && Synced(env, disk) && disk.store == old(disk.store)
      ensures disk == Recovered(env, old(disk))
      ensures executed == old(executed) + disk.store[|old(disk.app)|..]
    {
      hide Recoverable, IsTrail, HashAfter;
      var hash: Hash := [];
      var finalBlock := HeightOf(env, |disk.store|) - (if mutateState then 1 else 0);
      var firstBlock := HeightOf(env, |disk.app|) + 1;
      if firstBlock == 1 {
        firstBlock := env.initialHeight;
      }
      assert firstBlock == env.initialHeight + |disk.app|;
      assert finalBlock == env.initialHeight + disk.applied - 1;
      var start := |disk.app|;
      var i := firstBlock;
      while i <= finalBlock
        invariant Traced() && old(trail) <= trail && Recoverable(env, disk)
        invariant i == env.initialHeight + |disk.app|
        invariant start <= |disk.app| <= disk.applied && disk == old(disk).(app := disk.app)
        invariant executed == old(executed) + disk.store[start..|disk.app|]
        invariant hash == if |disk.app| == start then [] else env.appHash(disk.app)
      {
        var block := disk.store[i - env.initialHeight];
        NextBlock(env, disk);
        if hash != [] && hash != block.appHash {
          return HashPanic;
        }
        hash := ExecCommitBlock(block);
        i := i + 1;
      }
      if !mutateState {
        CaughtUp(env, disk);
      }
      if mutateState {
        r := ReplayBlock(None);
        if r != InStep {
          return;
        }
        hash := disk.stateHash;
      }
      if hash != disk.stateHash {
        return HashPanic;
      }
      return InStep;
    }

    /**
      Brings the application, the store and the state into step. All the blocks that the
      application is missing, and no others, are executed on it once, in order.
    */
    method Handshake() returns (r: Outcome)
      requires Traced() && env.initialHeight >= 1 && (Recoverable(env, disk) || AppAhead(env, disk))
      modifies this
      ensures Traced() && old(trail) <= trail
      ensures r == Expected(env, old(disk))
      ensures disk.store == old(disk.store)
      ensures AppAhead(env, old(disk)) ==> disk == old(disk) && executed == old(executed)
      ensures Recoverable(env, old(disk)) ==> Recoverable(env, disk)
      ensures Recoverable(env, old(disk)) && r == InStep ==>
        && Synced(env, disk) && disk == Recovered(env, old(disk))
        && executed == old(executed) + disk.store[|old(disk.app)|..]
      ensures r != InStep ==> executed == old(executed) && disk == old(disk).(stateHash := disk.stateHash)
    {
      ghost var start := disk;
      var appHeight, storeHeight, stateHeight := HeightOf(env, |disk.app|), HeightOf(env, |disk.store|),
        HeightOf(env, disk.applied);
      var storeBase := if disk.store == [] then 0 else env.initialHeight + disk.pruned;
      var appHash := env.appHash(disk.app);
      if appHeight == 0 {
        appHash := env.initChainHash;
        if stateHeight == 0 {
          var d := disk.(stateHash := if appHash != [] then appHash else disk.stateHash);
          assert SavesGenesis(env, disk, d);
          Put(d);
        }
      }
      if storeHeight == 0 {
        if appHash != disk.stateHash {
          return HashPanic;
        }
        return InStep;
      }
      if appHeight == 0 && env.initialHeight < storeBase {
        return AppTooLow;
      }
      if appHeight > 0 && appHeight < storeBase - 1 {
        return AppTooLow;
      }
      if storeHeight < appHeight {
        return AppTooHigh;
      }
      if storeHeight < stateHeight || storeHeight > stateHeight + 1 {
        return GapPanic;
      }
      if storeHeight == stateHeight {
        if appHeight < storeHeight {
          r := ReplayBlocks(false);
          return;
        } else if appHeight == storeHeight {
          CaughtUp(env, disk);
          if appHash != disk.stateHash {
            return HashPanic;
          }
          return InStep;
        }
      } else if storeHeight == stateHeight + 1 {
        if appHeight < stateHeight {
          r := ReplayBlocks(true);
          return;
        } else if appHeight == stateHeight {
          r := ReplayBlock(None);
          return;
        } else if appHeight == storeHeight {
          if disk.response == None || disk.response.value.0 != storeHeight {
            return NoResponse;
          }
          var saved := disk.response.value.1;
          if saved == [] {
            saved := appHash;
          }
          r := ReplayBlock(Some(saved));
          return;
        }
      }
      return UncoveredPanic;
    }
  }
}
