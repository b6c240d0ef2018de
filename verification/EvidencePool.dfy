/** The pool of pending and committed evidence: evidence/pool.go. */
module EvidencePool {
  import opened Power
  import opened EvidenceKeys

  type Hash = Key

  datatype Evidence = Evidence(height: Height, time: int, light: bool, content: nat)

  /** Two conflicting votes, not yet made into evidence. */
  datatype VotePair = VotePair(height: Height, content: nat)

  /** Hashing, what is known of the chain, and the verification of evidence itself. */
  datatype Env = Env(
    hash: Evidence -> Hash,
    blockTime: nat -> int,
    hasBlock: nat -> bool,
    genuine: Evidence -> bool,
    form: (VotePair, int) -> Option<Evidence>,
    sizeOf: seq<Evidence> -> nat)

  /** Times are in nanoseconds. */
  const SECOND := 1_000_000_000

  datatype ChainState = ChainState(height: nat, time: int, maxAgeBlocks: int, maxAgeDuration: int)

  ghost predicate Lawful(env: Env) {
    && (forall a, b :: env.hash(a) == env.hash(b) ==> a.height == b.height)
    && (forall g: nat, h: nat :: g <= h ==> env.blockTime(g) <= env.blockTime(h))
    && (forall v: VotePair, t: int :: env.form(v, t).Some? ==>
      env.form(v, t).value.height == v.height && env.form(v, t).value.time == t)
  }

  function KeyOf(env: Env, ev: Evidence): Key {
    KeySuffix(ev.height, env.hash(ev))
  }

  lemma SameKey(env: Env, a: Evidence, b: Evidence)
    requires Lawful(env)
    ensures KeyOf(env, a) == KeyOf(env, b) <==> env.hash(a) == env.hash(b)
  {
    if KeyOf(env, a) == KeyOf(env, b) {
      KeysInjective(a.height, env.hash(a), b.height, env.hash(b));
    }
  }

  predicate IsExpired(state: ChainState, height: nat, time: int) {
    state.height - height > state.maxAgeBlocks && state.time - time > state.maxAgeDuration
  }

  predicate Verifies(env: Env, state: ChainState, ev: Evidence) {
    && env.hasBlock(ev.height) && ev.time == env.blockTime(ev.height)
    && !IsExpired(state, ev.height, ev.time)
    && env.genuine(ev)
  }

  //---------------------------------------------------------------------------
  // What the store holds

  /** Evidence is under its key, and is dated with the block of its height. */
  ghost predicate Filed(env: Env, pending: map<Key, Evidence>) {
    forall k :: k in pending ==> k == KeyOf(env, pending[k]) && pending[k].time == env.blockTime(pending[k].height)
  }

  /** The keys of all that has expired. */
  ghost function ExpiredKeys(state: ChainState, pending: map<Key, Evidence>): set<Key> {
    set k | k in pending && IsExpired(state, pending[k].height, pending[k].time)
  }

  /** If an item has not expired then none of those after it in the store has. */
  lemma NoneExpiredAfter(env: Env, state: ChainState, pending: map<Key, Evidence>, k: Key, x: Key)
    requires Lawful(env) && Filed(env, pending) && k in pending && x in pending && LexLess(k, x)
    requires !IsExpired(state, pending[k].height, pending[k].time)
    ensures !IsExpired(state, pending[x].height, pending[x].time)
  {
    var a, b := pending[k], pending[x];
    if b.height < a.height {
      KeysOrderHeights(b.height, env.hash(b), a.height, env.hash(a));
      LexAsymmetric(k, x);
    }
  }

  const UINT32 := 0x1_0000_0000

  function Wrap32(n: nat): nat {
    n % UINT32
  }

  function Increment32(n: nat): nat {
    (n + 1) % UINT32
  }

  /** Adding the complement of zero takes one away. */
  function Decrement32(n: nat): nat {
    (n + UINT32 - 1) % UINT32
  }

  /** The counter is at least the number of items, as long as it does not wrap around. */
  ghost predicate Counted(pending: map<Key, Evidence>, size: nat, counted: nat) {
    |pending| <= counted && size == Wrap32(counted)
  }

  lemma StepsWrap(n: nat)
    ensures Increment32(Wrap32(n)) == Wrap32(n + 1) && Decrement32(Wrap32(n + 1)) == Wrap32(n)
  {
    var q := n / UINT32;
    assert n == q * UINT32 + Wrap32(n);
    assert n + 1 == (if Wrap32(n) + 1 < UINT32 then q else q + 1) * UINT32 + Increment32(Wrap32(n));
  }

  lemma CountOneMore(pending: map<Key, Evidence>, size: nat, counted: nat, k: Key, ev: Evidence)
    requires Counted(pending, size, counted)
    ensures Counted(pending[k := ev], Increment32(size), counted + 1)
  {
    hide Wrap32, Increment32;
    StepsWrap(counted);
    assert pending[k := ev].Keys == pending.Keys + {k};
    assert |pending.Keys + {k}| <= |pending.Keys| + 1;
  }

  ghost function ItemCount(pending: map<Key, Evidence>): nat {
    |pending|
  }

  lemma ItemsOneMore(pending: map<Key, Evidence>, k: Key, ev: Evidence)
    ensures ItemCount(pending[k := ev]) == ItemCount(pending) + if k in pending then 0 else 1
  {
    assert pending[k := ev].Keys == pending.Keys + {k};
    assert k in pending ==> pending.Keys + {k} == pending.Keys;
  }

  lemma ItemsOneLess(pending: map<Key, Evidence>, k: Key)
    requires k in pending
    ensures ItemCount(pending - {k}) == ItemCount(pending) - 1
  {
    assert (pending - {k}).Keys == pending.Keys - {k};
  }

  lemma CountOneLess(pending: map<Key, Evidence>, size: nat, counted: nat, k: Key)
    requires Counted(pending, size, counted) && k in pending
    ensures counted > 0 && Counted(pending - {k}, Decrement32(size), counted - 1)
  {
    hide Wrap32, Decrement32;
    assert (pending - {k}).Keys == pending.Keys - {k};
    assert |pending.Keys - {k}| == |pending.Keys| - 1;
    StepsWrap(counted - 1);
  }

  lemma FiledOneMore(env: Env, pending: map<Key, Evidence>, ev: Evidence)
    requires Filed(env, pending) && ev.time == env.blockTime(ev.height)
    ensures Filed(env, pending[KeyOf(env, ev) := ev])
  {
  }

  lemma FiledLess(env: Env, pending: map<Key, Evidence>, keys: set<Key>)
    requires Filed(env, pending)
    ensures Filed(env, pending - keys)
  {
  }

  lemma SameKeys(env: Env, evList: seq<Evidence>, n: nat)
    requires Lawful(env) && n < |evList|
    ensures forall i :: 0 <= i < n ==>
      (KeyOf(env, evList[i]) == KeyOf(env, evList[n]) <==> env.hash(evList[i]) == env.hash(evList[n]))
  {
    forall i | 0 <= i < n ensures KeyOf(env, evList[i]) == KeyOf(env, evList[n]) <==>
      env.hash(evList[i]) == env.hash(evList[n]) {
      SameKey(env, evList[i], evList[n]);
    }
  }

  /** Nothing is both pending and committed. */
  ghost predicate Apart(pending: map<Key, Evidence>, committed: map<Key, Height>) {
    forall k :: k in pending ==> k !in committed
  }

  /** Each listed item is pending, or its hash is among those to be dropped from the list. */
  ghost predicate ListFollows(env: Env, list: seq<Evidence>, pending: map<Key, Evidence>, dropped: set<Hash>) {
    forall e :: e in list ==> KeyOf(env, e) in pending || env.hash(e) in dropped
  }

  lemma NothingListed(env: Env, pending: map<Key, Evidence>)
    ensures ListFollows(env, [], pending, {})
  {
  }

  /** What is to be dropped is no longer pending. */
  ghost predicate DropsGone(env: Env, pending: map<Key, Evidence>, dropped: set<Hash>) {
    forall k :: k in pending ==> env.hash(pending[k]) !in dropped
  }

  lemma DropOne(env: Env, list: seq<Evidence>, pending: map<Key, Evidence>, dropped: set<Hash>, ev: Evidence)
    requires Lawful(env) && Filed(env, pending) && ListFollows(env, list, pending, dropped) &&
      DropsGone(env, pending, dropped)
    ensures ListFollows(env, list, pending - {KeyOf(env, ev)}, dropped + {env.hash(ev)})
    ensures DropsGone(env, pending - {KeyOf(env, ev)}, dropped + {env.hash(ev)})
  {
    forall e | e in list ensures KeyOf(env, e) in pending - {KeyOf(env, ev)} ||
      env.hash(e) in dropped + {env.hash(ev)} {
      SameKey(env, e, ev);
    }
    forall k | k in pending && k != KeyOf(env, ev) ensures env.hash(pending[k]) != env.hash(ev) {
      SameKey(env, pending[k], ev);
    }
  }

  /** After the drop, exactly the listed items that are still pending remain. */
  lemma AfterDrop(env: Env, list: seq<Evidence>, pending: map<Key, Evidence>, dropped: set<Hash>)
    requires Lawful(env) && Filed(env, pending) && ListFollows(env, list, pending, dropped) &&
      DropsGone(env, pending, dropped)
    ensures forall e :: e in list ==> (KeyOf(env, e) in pending <==> env.hash(e) !in dropped)
  {
    forall e | e in list && KeyOf(env, e) in pending ensures env.hash(e) !in dropped {
      SameKey(env, e, pending[KeyOf(env, e)]);
    }
  }

  /** The first i items of the store had expired and are gone. */
  ghost predicate Purged(state: ChainState, before: map<Key, Evidence>, pending: map<Key, Evidence>, keys: seq<Key>,
                         i: nat) {
    && i <= |keys| && InOrder(keys) && (forall k :: k in keys <==> k in before)
    && pending == before - (set j | 0 <= j < i :: keys[j])
    && forall j :: 0 <= j < i ==> keys[j] in before && IsExpired(state, before[keys[j]].height, before[keys[j]].time)
  }

  lemma PurgeStarts(state: ChainState, before: map<Key, Evidence>, keys: seq<Key>)
    requires InOrder(keys) && forall k :: k in keys <==> k in before
    ensures Purged(state, before, before, keys, 0)
  {
  }

  lemma PurgeNext(state: ChainState, before: map<Key, Evidence>, pending: map<Key, Evidence>, keys: seq<Key>, i: nat)
    requires Purged(state, before, pending, keys, i) && i < |keys|
    ensures keys[i] in pending && keys[i] in before && pending[keys[i]] == before[keys[i]]
    ensures IsExpired(state, pending[keys[i]].height, pending[keys[i]].time) ==>
      Purged(state, before, pending - {keys[i]}, keys, i + 1)
  {
    hide LexLess, IsExpired;
    assert keys[i] in keys;
    forall j | 0 <= j < i ensures keys[j] != keys[i] {
      LexAsymmetric(keys[j], keys[i]);
    }
    assert (set j | 0 <= j < i + 1 :: keys[j]) == (set j | 0 <= j < i :: keys[j]) + {keys[i]};
  }

  /** Exactly the expired items are gone. */
  ghost predicate WithoutExpired(state: ChainState, before: map<Key, Evidence>, after: map<Key, Evidence>) {
    after == before - ExpiredKeys(state, before)
  }

  ghost predicate NothingExpired(state: ChainState, pending: map<Key, Evidence>) {
    forall k :: k in pending ==> !IsExpired(state, pending[k].height, pending[k].time)
  }

  lemma PrunedClean(state: ChainState, before: map<Key, Evidence>, after: map<Key, Evidence>)
    requires WithoutExpired(state, before, after)
    ensures NothingExpired(state, after)
  {
  }

  lemma ApartPruned(state: ChainState, before: map<Key, Evidence>, after: map<Key, Evidence>,
                    committed: map<Key, Height>)
    requires WithoutExpired(state, before, after) && Apart(before, committed)
    ensures Apart(after, committed)
  {
  }

  /** Exactly the listed items that are still pending are still listed. */
  ghost predicate StillListed(env: Env, before: seq<Evidence>, after: seq<Evidence>, pending: map<Key, Evidence>) {
    forall e :: e in after <==> e in before && KeyOf(env, e) in pending
  }

  /** Stopping at the first item that has not expired has removed exactly the expired ones. */
  lemma PurgeStops(env: Env, state: ChainState, before: map<Key, Evidence>, pending: map<Key, Evidence>, keys: seq<Key>,
                   i: nat)
    requires Lawful(env) && Filed(env, before) && Purged(state, before, pending, keys, i)
    requires i < |keys| ==> keys[i] in before && !IsExpired(state, before[keys[i]].height, before[keys[i]].time)
    ensures WithoutExpired(state, before, pending)
    ensures i >= |keys| ==> pending == map[]
    ensures i < |keys| ==> keys[i] in pending && forall k :: k in pending ==> k == keys[i] || LexLess(keys[i], k)
  {
    hide LexLess, IsExpired, Lawful, Filed;
    var gone := set j | 0 <= j < i :: keys[j];
    forall k | k in before && k !in gone
      ensures i < |keys| && (k == keys[i] || LexLess(keys[i], k)) && !IsExpired(state, before[k].height, before[k].time)
    {
      assert k in keys;
      var j :| 0 <= j < |keys| && keys[j] == k;
      if j > i {
        NoneExpiredAfter(env, state, before, keys[i], k);
      }
    }
    assert gone == ExpiredKeys(state, before);
    if i < |keys| {
      assert keys[i] !in gone;
    }
  }

  /** This is the first item of the store. */
  ghost predicate IsOldest(pending: map<Key, Evidence>, k: Key) {
    k in pending && forall x :: x in pending ==> x == k || LexLess(k, x)
  }

  /** When to prune next: after the first item left will have expired. */
  ghost predicate PrunesNext(state: ChainState, pending: map<Key, Evidence>, nextHeight: int, nextTime: int) {
    if pending == map[] then nextHeight == state.height && nextTime == state.time
    else exists k ::
      && IsOldest(pending, k)
      && nextHeight == pending[k].height + state.maxAgeBlocks + 1
      && nextTime == pending[k].time + state.maxAgeDuration + 1_000_000_000
  }

  ghost predicate OldestLives(state: ChainState, pending: map<Key, Evidence>) {
    forall k :: IsOldest(pending, k) ==> !IsExpired(state, pending[k].height, pending[k].time)
  }

  /** Whether anything has expired is decided by the first item of the store. */
  lemma OldestDecides(env: Env, state: ChainState, pending: map<Key, Evidence>)
    requires Lawful(env) && Filed(env, pending)
    ensures NothingExpired(state, pending) <==> OldestLives(state, pending)
  {
    hide Lawful, Filed, IsExpired, LexLess;
    if pending != map[] && OldestLives(state, pending) {
      var keys := OrderedKeys(pending.Keys);
      assert keys[0] in keys;
      forall x | x in pending ensures x == keys[0] || LexLess(keys[0], x) {
        var j :| 0 <= j < |keys| && keys[j] == x;
      }
      assert IsOldest(pending, keys[0]);
      forall x | x in pending && x != keys[0] ensures !IsExpired(state, pending[x].height, pending[x].time) {
        NoneExpiredAfter(env, state, pending, keys[0], x);
      }
    }
  }

  /** The marks that the first item set are passed only once it has expired, and by up to a block and a second later. */
  lemma MarksAreLate(state: ChainState, next: ChainState, pending: map<Key, Evidence>, k: Key, height: int, time: int)
    requires PrunesNext(state, pending, height, time) && IsOldest(pending, k)
    requires next.maxAgeBlocks == state.maxAgeBlocks && next.maxAgeDuration == state.maxAgeDuration
    ensures next.height > height && next.time > time ==> IsExpired(next, pending[k].height, pending[k].time)
    ensures IsExpired(next, pending[k].height, pending[k].time) ==>
      (!(next.height > height && next.time > time) <==>
        next.height == height || time - 1_000_000_000 < next.time <= time)
  {
    var x :| IsOldest(pending, x) && height == pending[x].height + state.maxAgeBlocks + 1 &&
      time == pending[x].time + state.maxAgeDuration + SECOND;
    if x != k {
      LexAsymmetric(x, k);
    }
  }

  /** The counter is not zero and the marks are passed. */
  predicate Due(next: ChainState, size: int, pruningHeight: int, pruningTime: int) {
    size % UINT32 != 0 && next.height > pruningHeight && next.time > pruningTime
  }

  lemma PruneAfter(state: ChainState, pending: map<Key, Evidence>, k: Key)
    requires IsOldest(pending, k)
    ensures PrunesNext(state, pending, pending[k].height + state.maxAgeBlocks + 1,
      pending[k].time + state.maxAgeDuration + SECOND)
  {
  }

  lemma PruneAnytime(state: ChainState)
    ensures PrunesNext(state, map[], state.height, state.time)
  {
  }

  lemma FiledAt(env: Env, pending: map<Key, Evidence>, k: Key)
    requires Filed(env, pending) && k in pending
    ensures k == KeyOf(env, pending[k])
  {
  }

  lemma NoDrops(env: Env, pending: map<Key, Evidence>)
    ensures DropsGone(env, pending, {})
  {
  }

  lemma NoKeys(env: Env)
    ensures KeysOf(env, []) == {}
  {
  }

  ghost function KeysOf(env: Env, evs: seq<Evidence>): set<Key> {
    set i | 0 <= i < |evs| :: KeyOf(env, evs[i])
  }

  lemma KeysOfNext(env: Env, evs: seq<Evidence>, i: nat)
    requires i < |evs|
    ensures KeysOf(env, evs[..i + 1]) == KeysOf(env, evs[..i]) + {KeyOf(env, evs[i])}
  {
    var a, b := evs[..i], evs[..i + 1];
    assert forall j :: 0 <= j < i ==> a[j] == b[j];
    assert b[i] == evs[i];
  }

  datatype Verdict = Accepted | Committed | Invalid | Repeated

  lemma SizeZero(pending: map<Key, Evidence>, counted: nat)
    requires Counted(pending, 0, counted)
    ensures counted < UINT32 ==> pending == map[]
  {
  }

  lemma SizeIs(pending: map<Key, Evidence>, size: nat, counted: nat)
    requires Counted(pending, size, counted)
    ensures ItemCount(pending) <= counted && size == counted % UINT32
  {
  }

  lemma CountAll(pending: map<Key, Evidence>)
    ensures Counted(pending, Wrap32(|pending|), |pending|)
  {
  }

  /** All that is pending, in the order of the store; then the first of it. */
  ghost predicate StoreOrder(pending: map<Key, Evidence>, keys: seq<Key>, evs: seq<Evidence>) {
    && InOrder(keys) && |keys| == |pending| && (forall k :: k in keys <==> k in pending)
    && |evs| <= |keys| && (forall i :: 0 <= i < |evs| ==> keys[i] in pending && evs[i] == pending[keys[i]])
  }

  /** What comes next, if anything, does not fit. */
  ghost predicate Fills(env: Env, pending: map<Key, Evidence>, keys: seq<Key>, evs: seq<Evidence>, maxBytes: int) {
    |evs| < |keys| ==>
      maxBytes != -1 && keys[|evs|] in pending && env.sizeOf(evs + [pending[keys[|evs|]]]) > maxBytes
  }

  ghost predicate NoneFits(env: Env, pending: map<Key, Evidence>, maxBytes: int) {
    maxBytes != -1 && forall k :: IsOldest(pending, k) ==> env.sizeOf([pending[k]]) > maxBytes
  }

  lemma NothingListedFills(env: Env, pending: map<Key, Evidence>, keys: seq<Key>, maxBytes: int)
    requires InOrder(keys) && |keys| == |pending| && forall k :: k in keys <==> k in pending
    ensures StoreOrder(pending, keys, [])
    ensures Fills(env, pending, keys, [], maxBytes) <==> pending == map[] || NoneFits(env, pending, maxBytes)
  {
    hide LexLess;
    if keys != [] {
      var k := keys[0];
      assert k in keys && [] + [pending[k]] == [pending[k]];
      forall x | x in pending ensures x == k || LexLess(k, x) {
        var j :| 0 <= j < |keys| && keys[j] == x;
      }
      assert IsOldest(pending, k);
      forall x | IsOldest(pending, x) ensures x == k {
        if x != k {
          LexAsymmetric(x, k);
        }
      }
    }
  }

  ghost predicate AllListed(pending: map<Key, Evidence>, list: seq<Evidence>) {
    forall k :: k in pending ==> pending[k] in list
  }

  lemma ListedFiled(env: Env, pending: map<Key, Evidence>, evs: seq<Evidence>, keys: seq<Key>)
    requires Filed(env, pending) && StoreOrder(pending, keys, evs) && |evs| >= |keys|
    ensures ListFollows(env, evs, pending, {}) && |evs| == |pending|
    ensures AllListed(pending, evs)
  {
    forall k | k in pending ensures pending[k] in evs {
      var i :| 0 <= i < |keys| && keys[i] == k;
      assert evs[i] == pending[k];
    }
  }

  /** An item of a block is verified unless it is pending, and in any case if it is about a light client. */
  ghost predicate Rechecked(env: Env, before: map<Key, Evidence>, evList: seq<Evidence>, n: nat)
    requires n < |evList|
  {
    evList[n].light || !Holds(env, before, evList, n, KeyOf(env, evList[n]))
  }

  /** A key is in the store once the first n items of a block have been checked. */
  ghost predicate Holds(env: Env, before: map<Key, Evidence>, evList: seq<Evidence>, n: nat, k: Key)
    requires n <= |evList|
  {
    k in before || exists i :: 0 <= i < n && KeyOf(env, evList[i]) == k
  }

  ghost predicate Sound(env: Env, state: ChainState, committed: map<Key, Height>, ev: Evidence) {
    KeyOf(env, ev) !in committed && Verifies(env, state, ev)
  }

  ghost predicate RepeatsAt(env: Env, evList: seq<Evidence>, n: nat)
    requires n < |evList|
  {
    exists i :: 0 <= i < n && env.hash(evList[i]) == env.hash(evList[n])
  }

  /**
    No two of the first n items have one hash, and each is sound or, unless it is about a light client, was pending.
  */
  ghost predicate Acceptable(env: Env, state: ChainState, committed: map<Key, Height>, before: map<Key, Evidence>,
                             evList: seq<Evidence>, n: nat)
  {
    && n <= |evList| && (forall i :: 0 <= i < n ==> !RepeatsAt(env, evList, i))
    && forall i :: 0 <= i < n ==>
      (!evList[i].light && KeyOf(env, evList[i]) in before) || Sound(env, state, committed, evList[i])
  }

  /** What is wrong with an item, if those before it are acceptable. */
  ghost predicate FaultAt(env: Env, state: ChainState, committed: map<Key, Height>, before: map<Key, Evidence>,
                          evList: seq<Evidence>, n: nat, r: Verdict)
    requires n < |evList|
  {
    match r
    case Accepted => false
    case Committed => Rechecked(env, before, evList, n) && KeyOf(env, evList[n]) in committed
    case Invalid =>
      && Rechecked(env, before, evList, n)
      && KeyOf(env, evList[n]) !in committed && !Verifies(env, state, evList[n])
    case Repeated =>
      && RepeatsAt(env, evList, n)
      && (Rechecked(env, before, evList, n) ==> Sound(env, state, committed, evList[n]))
  }

  /** The n-th item is the first at fault. */
  ghost predicate FirstFault(env: Env, state: ChainState, committed: map<Key, Height>, before: map<Key, Evidence>,
                             evList: seq<Evidence>, n: nat, r: Verdict)
  {
    && n < |evList| && Acceptable(env, state, committed, before, evList, n)
    && FaultAt(env, state, committed, before, evList, n, r)
  }

  /** How many of the first n items were put into the store, and counted, though they were in it. */
  ghost function Readded(env: Env, before: map<Key, Evidence>, evList: seq<Evidence>, n: nat): nat
    requires n <= |evList|
  {
    if n == 0 then 0
    else
      var again := evList[n - 1].light && Holds(env, before, evList, n - 1, KeyOf(env, evList[n - 1]));
      Readded(env, before, evList, n - 1) + if again then 1 else 0
  }

  ghost predicate HeldLight(env: Env, before: map<Key, Evidence>, ev: Evidence) {
    ev.light && KeyOf(env, ev) in before
  }

  ghost function HeldLights(env: Env, before: map<Key, Evidence>, evList: seq<Evidence>, n: nat): set<nat>
    requires n <= |evList|
  {
    set i: nat | i < n && HeldLight(env, before, evList[i])
  }

  lemma NotHeldEarlier(env: Env, before: map<Key, Evidence>, evList: seq<Evidence>, n: nat)
    requires Lawful(env) && n < |evList| && !RepeatsAt(env, evList, n)
    ensures Holds(env, before, evList, n, KeyOf(env, evList[n])) <==> KeyOf(env, evList[n]) in before
  {
    SameKeys(env, evList, n);
  }

  lemma AcceptLess(env: Env, state: ChainState, committed: map<Key, Height>, before: map<Key, Evidence>,
                   evList: seq<Evidence>, n: nat)
    requires Acceptable(env, state, committed, before, evList, n) && n > 0
    ensures n <= |evList| && Acceptable(env, state, committed, before, evList, n - 1) && !RepeatsAt(env, evList, n - 1)
  {
  }

  /** In an acceptable list it is the items about light clients that were pending before. */
  lemma {:induction false} ReaddedAreHeld(env: Env, state: ChainState, committed: map<Key, Height>,
                                          before: map<Key, Evidence>, evList: seq<Evidence>, n: nat)
    requires Lawful(env) && Acceptable(env, state, committed, before, evList, n)
    ensures Readded(env, before, evList, n) == |HeldLights(env, before, evList, n)|
  {
    hide KeyOf, Lawful, Verifies, Holds, RepeatsAt, Acceptable;
    if n > 0 {
      AcceptLess(env, state, committed, before, evList, n);
      ReaddedAreHeld(env, state, committed, before, evList, n - 1);
      NotHeldEarlier(env, before, evList, n - 1);
      var less, more := HeldLights(env, before, evList, n - 1), HeldLights(env, before, evList, n);
      assert more == if HeldLight(env, before, evList[n - 1]) then less + {n - 1} else less;
    }
  }

  lemma AcceptStep(env: Env, state: ChainState, committed: map<Key, Height>, before: map<Key, Evidence>,
                   evList: seq<Evidence>, n: nat)
    requires Lawful(env) && n < |evList| && Acceptable(env, state, committed, before, evList, n)
    requires !RepeatsAt(env, evList, n)
    requires Rechecked(env, before, evList, n) ==> Sound(env, state, committed, evList[n])
    ensures Acceptable(env, state, committed, before, evList, n + 1)
  {
    hide KeyOf, Lawful, Verifies;
    NotHeldEarlier(env, before, evList, n);
  }

  /** The first fault decides: with one, no longer part of the list is acceptable. */
  lemma FaultBars(env: Env, state: ChainState, committed: map<Key, Height>, before: map<Key, Evidence>,
                  evList: seq<Evidence>, n: nat, r: Verdict, m: nat)
    requires Lawful(env) && Apart(before, committed) && n < m <= |evList|
    requires FaultAt(env, state, committed, before, evList, n, r)
    ensures !Acceptable(env, state, committed, before, evList, m)
  {
    hide KeyOf, Lawful, Verifies;
    if !RepeatsAt(env, evList, n) {
      NotHeldEarlier(env, before, evList, n);
    }
  }

  lemma FaultRefuses(env: Env, state: ChainState, committed: map<Key, Height>, before: map<Key, Evidence>,
                     evList: seq<Evidence>, n: nat, r: Verdict)
    requires Lawful(env) && Apart(before, committed) && n < |evList|
    requires Acceptable(env, state, committed, before, evList, n)
    requires FaultAt(env, state, committed, before, evList, n, r)
    ensures FirstFault(env, state, committed, before, evList, n, r)
    ensures !Acceptable(env, state, committed, before, evList, |evList|)
  {
    FaultBars(env, state, committed, before, evList, n, r, |evList|);
  }

  lemma AcceptNone(env: Env, state: ChainState, committed: map<Key, Height>, before: map<Key, Evidence>,
                   evList: seq<Evidence>)
    ensures Acceptable(env, state, committed, before, evList, 0)
  {
  }

  lemma AllHeld(env: Env, before: map<Key, Evidence>, pending: map<Key, Evidence>, evList: seq<Evidence>)
    requires Grown(env, before, pending, evList, |evList|)
    ensures forall ev :: ev in evList ==> KeyOf(env, ev) in pending
  {
    forall ev | ev in evList ensures KeyOf(env, ev) in pending {
      var i :| 0 <= i < |evList| && evList[i] == ev;
      assert Holds(env, before, evList, |evList|, KeyOf(env, ev));
    }
  }

  lemma {:induction false} NoneReaddedUpTo(env: Env, before: map<Key, Evidence>, evList: seq<Evidence>, n: nat)
    requires n <= |evList| && forall ev :: ev in evList ==> !ev.light
    ensures Readded(env, before, evList, n) == 0
  {
    if n > 0 {
      NoneReaddedUpTo(env, before, evList, n - 1);
      assert evList[n - 1] in evList;
    }
  }

  lemma NoneReadded(env: Env, before: map<Key, Evidence>, evList: seq<Evidence>)
    requires forall ev :: ev in evList ==> !ev.light
    ensures forall n :: 0 <= n <= |evList| ==> Readded(env, before, evList, n) == 0
  {
    forall n | 0 <= n <= |evList| ensures Readded(env, before, evList, n) == 0 {
      NoneReaddedUpTo(env, before, evList, n);
    }
  }

  /** The store holds what it held and the first n items. */
  ghost predicate Grown(env: Env, before: map<Key, Evidence>, pending: map<Key, Evidence>, evList: seq<Evidence>,
                        n: nat) {
    n <= |evList| && forall k :: k in pending <==> Holds(env, before, evList, n, k)
  }

  lemma GrowStarts(env: Env, before: map<Key, Evidence>, evList: seq<Evidence>)
    ensures Grown(env, before, before, evList, 0)
  {
  }

  lemma GrowStep(env: Env, before: map<Key, Evidence>, was: map<Key, Evidence>, pending: map<Key, Evidence>,
                 evList: seq<Evidence>, n: nat)
    requires Grown(env, before, was, evList, n) && n < |evList|
    requires pending.Keys == was.Keys + {KeyOf(env, evList[n])}
    ensures Grown(env, before, pending, evList, n + 1)
  {
    hide KeyOf;
    forall k ensures k in pending <==> Holds(env, before, evList, n + 1, k) {
      assert Holds(env, before, evList, n + 1, k) <==> Holds(env, before, evList, n, k) || k == KeyOf(env, evList[n]);
      assert k in pending <==> k in pending.Keys;
    }
  }

  lemma GrownHas(env: Env, before: map<Key, Evidence>, pending: map<Key, Evidence>, evList: seq<Evidence>, n: nat)
    requires Grown(env, before, pending, evList, n) && n < |evList|
    ensures KeyOf(env, evList[n]) in pending <==> Holds(env, before, evList, n, KeyOf(env, evList[n]))
  {
  }

  lemma RepeatedIn(env: Env, evList: seq<Evidence>, n: nat, hashes: seq<Hash>)
    requires n < |evList| && |hashes| == n && forall i :: 0 <= i < n ==> hashes[i] == env.hash(evList[i])
    ensures env.hash(evList[n]) in hashes <==> RepeatsAt(env, evList, n)
  {
  }

  /** The evidence that buffered votes make at a new state, if they can be made into any. */
  function Formed(env: Env, votes: VotePair, next: ChainState): (r: Option<Evidence>)
    ensures next.time == env.blockTime(next.height) && votes.height <= next.height &&
            (votes.height < next.height ==> env.hasBlock(votes.height)) ==>
      r == env.form(votes, env.blockTime(votes.height))
  {
    if votes.height == next.height then env.form(votes, next.time)
    else if votes.height < next.height && env.hasBlock(votes.height) then env.form(votes, env.blockTime(votes.height))
    else None
  }

  ghost function FormedKeys(env: Env, buffer: seq<VotePair>, next: ChainState): set<Key> {
    set i | 0 <= i < |buffer| && Formed(env, buffer[i], next).Some? :: KeyOf(env, Formed(env, buffer[i], next).value)
  }

  lemma FormedKeysNext(env: Env, buffer: seq<VotePair>, i: nat, next: ChainState)
    requires i < |buffer|
    ensures FormedKeys(env, buffer[..i + 1], next) == FormedKeys(env, buffer[..i], next) +
      if Formed(env, buffer[i], next).Some? then {KeyOf(env, Formed(env, buffer[i], next).value)} else {}
  {
    hide KeyOf;
    var a, b := buffer[..i], buffer[..i + 1];
    assert forall j :: 0 <= j < i ==> a[j] == b[j];
    assert b[i] == buffer[i];
  }

  /** Looks for a hash from the end. */
  method IsRepeated(hashes: seq<Hash>, hash: Hash) returns (r: bool)
    ensures r <==> hash in hashes
  {
    var i := |hashes| - 1;
    while i >= 0
      invariant -1 <= i < |hashes|
      invariant forall j :: i < j < |hashes| ==> hashes[j] != hash
    {
      if hashes[i] == hash {
        return true;
      }
      i := i - 1;
    }
    return false;
  }

  class Pool {
    const env: Env
    var pending: map<Key, Evidence>
    var committed: map<Key, Height>
    var evidenceList: seq<Evidence>
    var evidenceSize: nat             // a 32-bit counter
    ghost var counted: nat            // the same, if it did not wrap around
    var state: ChainState
    var consensusBuffer: seq<VotePair>
    var pruningHeight: int
    var pruningTime: int

    /** The store, the list and the counter agree. */
    ghost predicate Valid()
      reads this
    {
      && Lawful(env) && Filed(env, pending)
      && Apart(pending, committed)
      && ListFollows(env, evidenceList, pending, {})
      && Counted(pending, evidenceSize, counted)
    }

    ghost function Snapshot(): Snap
      reads this
    {
      Snap(pending, committed, state, consensusBuffer, pruningHeight, pruningTime, counted)
    }

    /** By how much the counter exceeds the number of items. */
    ghost function Excess(): int
      reads this
    {
      counted - ItemCount(pending)
    }

    /** Puts an item into the store; if it was there, the counter exceeds the number of items by one more. */
    method AddPendingEvidence(ev: Evidence)
      requires Valid() && KeyOf(env, ev) !in committed && ev.time == env.blockTime(ev.height)
      modifies this`pending, this`evidenceSize, this`counted
      ensures Valid() && pending == old(pending)[KeyOf(env, ev) := ev] && counted == old(counted) + 1
      ensures Excess() == old(Excess()) + if KeyOf(env, ev) in old(pending) then 1 else 0
    {
      hide ItemCount, KeyOf, Lawful, Filed, Counted, Increment32;
      ItemsOneMore(pending, KeyOf(env, ev), ev);
      CountOneMore(pending, evidenceSize, counted, KeyOf(env, ev), ev);
      FiledOneMore(env, pending, ev);
      pending := pending[KeyOf(env, ev) := ev];
      evidenceSize := Increment32(evidenceSize);
      counted := counted + 1;
    }

    /** Valid, but for listed items with hashes that are yet to be dropped from the list. */
    ghost predicate Dropping(dropped: set<Hash>)
      reads this
    {
      && Lawful(env) && Filed(env, pending) && Counted(pending, evidenceSize, counted)
      && ListFollows(env, evidenceList, pending, dropped) && DropsGone(env, pending, dropped)
    }

    /** Takes an item out of the store, but not yet out of the list. */
    method RemovePendingEvidence(ev: Evidence, ghost dropped: set<Hash>)
      requires Dropping(dropped) && KeyOf(env, ev) in pending
      modifies this`pending, this`evidenceSize, this`counted
      ensures Dropping(dropped + {env.hash(ev)})
      ensures pending == old(pending) - {KeyOf(env, ev)} && counted == old(counted) - 1 && Excess() == old(Excess())
    {
      hide ItemCount, KeyOf, Lawful, Filed, Counted, Decrement32, ListFollows, DropsGone;
      ItemsOneLess(pending, KeyOf(env, ev));
      CountOneLess(pending, evidenceSize, counted, KeyOf(env, ev));
      FiledLess(env, pending, {KeyOf(env, ev)});
      DropOne(env, evidenceList, pending, dropped, ev);
      pending := pending - {KeyOf(env, ev)};
      evidenceSize := Decrement32(evidenceSize);
      counted := counted - 1;
    }

    /** Drops from the list whatever has one of the given hashes. */
    method RemoveEvidenceFromList(hashes: set<Hash>)
      modifies this`evidenceList
      ensures forall e :: e in evidenceList <==> e in old(evidenceList) && env.hash(e) !in hashes
    {
      var kept: seq<Evidence> := [];
      for i := 0 to |evidenceList|
        invariant forall e :: e in kept <==> e in evidenceList[..i] && env.hash(e) !in hashes
      {
        if env.hash(evidenceList[i]) !in hashes {
          kept := kept + [evidenceList[i]];
        }
      }
      evidenceList := kept;
    }

    /** Verifies evidence that is new and adds it to the store and the list. */
    method AddEvidence(ev: Evidence) returns (ok: bool)
      requires Valid()
      modifies this`pending, this`evidenceSize, this`counted, this`evidenceList
      ensures Valid()
      ensures var key := KeyOf(env, ev);
        && ok == (key in old(pending) || key in committed || Verifies(env, state, ev))
        && if key in old(pending) || key in committed || !ok
           then pending == old(pending) && evidenceList == old(evidenceList)
           else pending == old(pending)[key := ev] && evidenceList == old(evidenceList) + [ev]
      ensures KeyOf(env, ev) !in old(pending) && KeyOf(env, ev) !in committed ==>
        (ok <==>
          && env.genuine(ev) && env.hasBlock(ev.height) && ev.time == env.blockTime(ev.height)
          && (state.height - ev.height <= state.maxAgeBlocks || state.time - ev.time <= state.maxAgeDuration))
      ensures Excess() == old(Excess())
    {
      hide ItemCount, KeyOf, Lawful, Filed, Counted;
      if KeyOf(env, ev) in pending || KeyOf(env, ev) in committed {
        return true;
      }
      if !Verifies(env, state, ev) {
        return false;
      }
      AddPendingEvidence(ev);
      evidenceList := evidenceList + [ev];
      return true;
    }

    /**
      Checks the evidence of a block: acceptable lists and no others are accepted, and the first item at fault decides.
      What was checked is in the store, and the counter exceeds it by one more for each item that was in it already.
    */
    method CheckEvidence(evList: seq<Evidence>) returns (r: Verdict, ghost n: nat)
      requires Valid()
      modifies this`pending, this`evidenceSize, this`counted
      ensures Valid()
      ensures r == Accepted <==> Acceptable(env, state, committed, old(pending), evList, |evList|)
      ensures r == Accepted ==> forall ev :: ev in evList ==> KeyOf(env, ev) in pending && KeyOf(env, ev) !in committed
      ensures r != Accepted ==> FirstFault(env, state, committed, old(pending), evList, n, r)
      ensures var checked := if r == Accepted then |evList| else if r == Repeated then n + 1 else n;
        && Grown(env, old(pending), pending, evList, checked)
        && Excess() == old(Excess()) + Readded(env, old(pending), evList, checked)
      ensures r == Accepted ==> Excess() == old(Excess()) + |HeldLights(env, old(pending), evList, |evList|)|
    {
      hide ItemCount, KeyOf, Lawful, Filed, Counted, ListFollows, Acceptable, FirstFault, Holds, Grown, RepeatsAt;
      hide HeldLights;
      ghost var before, excess := pending, Excess();
      GrowStarts(env, before, evList);
      AcceptNone(env, state, committed, before, evList);
      var hashes: seq<Hash> := [];
      n := 0;
      for m := 0 to |evList|
        invariant Valid() && |hashes| == m && (forall i :: 0 <= i < m ==> hashes[i] == env.hash(evList[i]))
        invariant n == m && Grown(env, before, pending, evList, m)
        invariant Acceptable(env, state, committed, before, evList, m)
        invariant Excess() == excess + Readded(env, before, evList, m)
      {
        var ev := evList[m];
        ghost var was := pending;
        GrownHas(env, before, pending, evList, m);
        if ev.light || KeyOf(env, ev) !in pending {
          if KeyOf(env, ev) in committed {
            FaultRefuses(env, state, committed, before, evList, m, Committed);
            return Committed, m;
          }
          if !Verifies(env, state, ev) {
            FaultRefuses(env, state, committed, before, evList, m, Invalid);
            return Invalid, m;
          }
          AddPendingEvidence(ev);
        }
        GrowStep(env, before, was, pending, evList, m);
        var repeated := IsRepeated(hashes, env.hash(ev));
        RepeatedIn(env, evList, m, hashes);
        if repeated {
          FaultRefuses(env, state, committed, before, evList, m, Repeated);
          return Repeated, m;
        }
        AcceptStep(env, state, committed, before, evList, m);
        hashes := hashes + [env.hash(ev)];
        n := m + 1;
      }
      ReaddedAreHeld(env, state, committed, before, evList, |evList|);
      AllHeld(env, before, pending, evList);
      return Accepted, |evList|;
    }

    /** Moves evidence of a block from the pending to the committed, and drops it from the list. */
    method MarkEvidenceAsCommitted(evs: seq<Evidence>)
      requires Valid()
      modifies this`pending, this`committed, this`evidenceSize, this`counted, this`evidenceList
      ensures Valid()
      ensures pending == old(pending) - KeysOf(env, evs) && committed.Keys == old(committed).Keys + KeysOf(env, evs)
      ensures StillListed(env, old(evidenceList), evidenceList, pending) && Excess() == old(Excess())
    {
      hide ItemCount, StillListed, KeyOf, Lawful, Filed, Counted, KeysOf, ListFollows, DropsGone;
      NoDrops(env, pending);
      NoKeys(env);
      var dropped: set<Hash> := {};
      assert evs[..0] == [];
      for i := 0 to |evs|
        invariant Dropping(dropped) && evidenceList == old(evidenceList) && Excess() == old(Excess())
        invariant pending == old(pending) - KeysOf(env, evs[..i])
        invariant committed.Keys == old(committed).Keys + KeysOf(env, evs[..i])
      {
        var ev := evs[i];
        KeysOfNext(env, evs, i);
        if KeyOf(env, ev) in pending {
          RemovePendingEvidence(ev, dropped);
          dropped := dropped + {env.hash(ev)};
        }
        committed := committed[KeyOf(env, ev) := ev.height];
      }
      assert evs[..|evs|] == evs;
      DropListed(dropped);
    }

    /** Brings the list in line with the store again. */
    method DropListed(dropped: set<Hash>)
      requires Dropping(dropped)
      modifies this`evidenceList
      ensures ListFollows(env, evidenceList, pending, {})
      ensures StillListed(env, old(evidenceList), evidenceList, pending)
    {
      AfterDrop(env, evidenceList, pending, dropped);
      if dropped != {} {
        RemoveEvidenceFromList(dropped);
      }
    }

    /** Goes through the store in order and removes items up to the first that has not expired. */
    method PurgeExpired() returns (dropped: set<Hash>, keys: seq<Key>, i: nat)
      requires Valid()
      modifies this`pending, this`evidenceSize, this`counted
      ensures Dropping(dropped) && Purged(state, old(pending), pending, keys, i) && Excess() == old(Excess())
      ensures i < |keys| ==> keys[i] in pending && !IsExpired(state, pending[keys[i]].height, pending[keys[i]].time)
    {
      hide ItemCount, KeyOf, Lawful, Filed, Counted, ListFollows, DropsGone, LexLess, IsExpired, Purged, InOrder;
      NoDrops(env, pending);
      dropped := {};
      keys := Iterate(pending.Keys);
      PurgeStarts(state, pending, keys);
      i := 0;
      while i < |keys|
        invariant 0 <= i <= |keys| && Dropping(dropped) && Excess() == old(Excess())
        invariant Purged(state, old(pending), pending, keys, i)
      {
        PurgeNext(state, old(pending), pending, keys, i);
        var ev := pending[keys[i]];
        FiledAt(env, pending, keys[i]);
        if !IsExpired(state, ev.height, ev.time) {
          return;
        }
        RemovePendingEvidence(ev, dropped);
        dropped := dropped + {env.hash(ev)};
        i := i + 1;
      }
    }

    /** Removes exactly the expired evidence from the store and the list; gives the next time to prune. */
    method RemoveExpiredPendingEvidence() returns (nextHeight: int, nextTime: int)
      requires Valid()
      modifies this`pending, this`evidenceSize, this`counted, this`evidenceList
      ensures Valid()
      ensures WithoutExpired(state, old(pending), pending) && StillListed(env, old(evidenceList), evidenceList, pending)
      ensures PrunesNext(state, pending, nextHeight, nextTime) && Excess() == old(Excess())
    {
      hide ItemCount, KeyOf, Lawful, Filed, Counted, ListFollows, DropsGone, LexLess, IsExpired, Purged, PrunesNext;
      hide WithoutExpired, StillListed, Apart;
      var dropped, keys, i := PurgeExpired();
      ghost var before := old(pending);
      if i < |keys| {
        PurgeNext(state, old(pending), pending, keys, i);
      }
      PurgeStops(env, state, before, pending, keys, i);
      ApartPruned(state, before, pending, committed);
      DropListed(dropped);
      if i < |keys| {
        var ev := pending[keys[i]];
        PruneAfter(state, pending, keys[i]);
        return ev.height + state.maxAgeBlocks + 1, ev.time + state.maxAgeDuration + SECOND;
      }
      PruneAnytime(state);
      return state.height, state.time;
    }

    /** Buffers two conflicting votes until their height is over. */
    method ReportConflictingVotes(votes: VotePair)
      modifies this`consensusBuffer
      ensures consensusBuffer == old(consensusBuffer) + [votes]
    {
      consensusBuffer := consensusBuffer + [votes];
    }

    /** Turns the buffered votes into evidence; exactly what is new and not committed becomes pending. */
    method ProcessConsensusBuffer(next: ChainState)
      requires Valid() && next.time == env.blockTime(next.height)
      modifies this`pending, this`evidenceSize, this`counted, this`evidenceList, this`consensusBuffer
      ensures Valid() && consensusBuffer == [] && Excess() == old(Excess())
      ensures forall k :: k in old(pending) ==> k in pending && pending[k] == old(pending)[k]
      ensures pending.Keys == old(pending).Keys + (FormedKeys(env, old(consensusBuffer), next) - committed.Keys)
    {
      hide ItemCount, KeyOf, Filed, Counted;
      assert consensusBuffer[..0] == [];
      for i := 0 to |consensusBuffer|
        invariant Valid() && consensusBuffer == old(consensusBuffer) && Excess() == old(Excess())
        invariant forall k :: k in old(pending) ==> k in pending && pending[k] == old(pending)[k]
        invariant pending.Keys == old(pending).Keys + (FormedKeys(env, consensusBuffer[..i], next) - committed.Keys)
      {
        FormedKeysNext(env, consensusBuffer, i, next);
        var dve := Formed(env, consensusBuffer[i], next);
        assert dve.Some? ==> dve.value.time == env.blockTime(dve.value.height);
        if dve.Some? && KeyOf(env, dve.value) !in pending && KeyOf(env, dve.value) !in committed {
          AddPendingEvidence(dve.value);
          evidenceList := evidenceList + [dve.value];
        }
      }
      assert consensusBuffer[..|consensusBuffer|] == consensusBuffer;
      consensusBuffer := [];
    }

    /** Prunes if the counter is not zero and the marks are passed; what has expired is gone then, and else stays. */
    method PruneIfDue()
      requires Valid()
      modifies this`pending, this`evidenceSize, this`counted, this`evidenceList, this`pruningHeight, this`pruningTime
      ensures Valid() && Excess() == old(Excess())
      ensures if Due(state, old(counted), old(pruningHeight), old(pruningTime))
        then WithoutExpired(state, old(pending), pending) && PrunesNext(state, pending, pruningHeight, pruningTime)
        else pending == old(pending) && pruningHeight == old(pruningHeight) && pruningTime == old(pruningTime)
      ensures NothingExpired(state, pending) <==>
        Due(state, old(counted), old(pruningHeight), old(pruningTime)) || OldestLives(state, old(pending))
      ensures state.height > old(pruningHeight) && state.time > old(pruningTime) && old(counted) < UINT32 ==>
        NothingExpired(state, pending)
      ensures forall k :: k in old(pending) ==>
        || (k in pending && pending[k] == old(pending)[k])
        || IsExpired(state, old(pending)[k].height, old(pending)[k].time)
    {
      hide ItemCount, KeyOf, Lawful, Filed, Counted, IsExpired, PrunesNext, StillListed, NothingExpired, OldestLives;
      ghost var left := pending;
      SizeIs(pending, evidenceSize, counted);
      OldestDecides(env, state, left);
      if evidenceSize > 0 && state.height > pruningHeight && state.time > pruningTime {
        pruningHeight, pruningTime := RemoveExpiredPendingEvidence();
        PrunedClean(state, left, pending);
      } else if evidenceSize == 0 {
        SizeZero(pending, counted);
        PrunedClean(state, map[], map[]);
      }
    }

    /**
      Moves to a new state with the evidence that its block committed; panics if the state is not newer. What is left
      after the evidence from the buffer came and that of the block went is pruned only if the marks are passed, so
      expired evidence stays if they are not and the first item left has expired.
    */
    method Update(next: ChainState, evs: seq<Evidence>) returns (panicked: bool, ghost left: map<Key, Evidence>)
      requires Valid() && next.time == env.blockTime(next.height)
      modifies this
      ensures Valid() && Excess() == old(Excess())
      ensures panicked <==> next.height <= old(state).height
      ensures panicked ==> unchanged(this)
      ensures !panicked ==> state == next && consensusBuffer == []
      ensures !panicked ==> committed.Keys == old(committed).Keys + KeysOf(env, evs) && KeysOf(env, evs) !! pending.Keys
      ensures !panicked ==>
        left.Keys ==
          old(pending).Keys + (FormedKeys(env, old(consensusBuffer), next) - old(committed).Keys) - KeysOf(env, evs)
      ensures !panicked ==> forall k :: k in left && k in old(pending) ==> left[k] == old(pending)[k]
      ensures !panicked ==>
        if Due(next, old(Excess()) + ItemCount(left), old(pruningHeight), old(pruningTime))
        then WithoutExpired(next, left, pending) && PrunesNext(next, pending, pruningHeight, pruningTime)
        else pending == left && pruningHeight == old(pruningHeight) && pruningTime == old(pruningTime)
      ensures !panicked ==>
        (NothingExpired(next, pending) <==>
          || Due(next, old(Excess()) + ItemCount(left), old(pruningHeight), old(pruningTime))
          || OldestLives(next, left))
      ensures !panicked && next.height > old(pruningHeight) && next.time > old(pruningTime) && counted < UINT32 ==>
        NothingExpired(next, pending)
      ensures !panicked ==> forall k :: k in old(pending) && k !in pending ==>
        k in KeysOf(env, evs) || IsExpired(next, old(pending)[k].height, old(pending)[k].time)
    {
      hide ItemCount, KeyOf, Lawful, Filed, Counted, KeysOf, IsExpired, PrunesNext, StillListed, NothingExpired;
      hide WithoutExpired, OldestLives, Due;
      if next.height <= state.height {
        return true, map[];
      }
      ProcessConsensusBuffer(next);
      state := next;
      MarkEvidenceAsCommitted(evs);
      left := pending;
      PruneIfDue();
      return false, left;
    }

    /** The pending evidence in the order of the store, as long as it fits into maxBytes, if that is not -1. */
    method ListEvidence(maxBytes: int) returns (evs: seq<Evidence>, ghost keys: seq<Key>)
      ensures StoreOrder(pending, keys, evs)
      ensures maxBytes != -1 ==> forall n :: 0 < n <= |evs| ==> env.sizeOf(evs[..n]) <= maxBytes
      ensures Fills(env, pending, keys, evs, maxBytes)
    {
      hide InOrder;
      var sorted := Iterate(pending.Keys);
      keys := sorted;
      evs := [];
      for i := 0 to |sorted|
        invariant |evs| == i && forall j :: 0 <= j < i ==> evs[j] == pending[sorted[j]]
        invariant maxBytes != -1 ==> forall n :: 0 < n <= |evs| ==> env.sizeOf(evs[..n]) <= maxBytes
      {
        assert sorted[i] in sorted;
        var more := evs + [pending[sorted[i]]];
        if maxBytes != -1 && env.sizeOf(more) > maxBytes {
          return;
        }
        assert forall n :: 0 < n <= i ==> more[..n] == evs[..n];
        assert more[..i + 1] == more;
        evs := more;
      }
    }

    /**
      Evidence for a proposal. The counter at zero is taken to mean that there is none, which loses nothing exactly if
      there is none, or the first item does not fit.
    */
    method PendingEvidence(maxBytes: int) returns (evs: seq<Evidence>, ghost keys: seq<Key>)
      requires Valid()
      ensures StoreOrder(pending, keys, evs)
      ensures maxBytes != -1 ==> forall n :: 0 < n <= |evs| ==> env.sizeOf(evs[..n]) <= maxBytes
      ensures Fills(env, pending, keys, evs, maxBytes) <==>
        evidenceSize != 0 || pending == map[] || NoneFits(env, pending, maxBytes)
      ensures evidenceSize == 0 ==> evs == [] && (pending == map[] || counted >= UINT32)
    {
      if evidenceSize == 0 {
        SizeZero(pending, counted);
        keys := OrderedKeys(pending.Keys);
        NothingListedFills(env, pending, keys, maxBytes);
        return [], keys;
      }
      hide StoreOrder;
      evs, keys := ListEvidence(maxBytes);
    }

    /** A pool over a store that an earlier one left: expired evidence goes, the rest is listed. */
    constructor (env: Env, pending: map<Key, Evidence>, committed: map<Key, Height>, state: ChainState)
      requires Lawful(env) && Filed(env, pending) && Apart(pending, committed)
      ensures Valid() && this.env == env && this.committed == committed && this.state == state
      ensures WithoutExpired(state, pending, this.pending)
      ensures AllListed(this.pending, evidenceList) && counted == |this.pending|
      ensures PrunesNext(state, this.pending, pruningHeight, pruningTime) && consensusBuffer == []
    {
      hide ItemCount, KeyOf, Lawful, Filed, Counted, ListFollows, Apart, AllListed, WithoutExpired, StillListed;
      hide PrunesNext;
      this.env := env;
      this.pending := pending;
      this.committed := committed;
      this.state := state;
      evidenceList, consensusBuffer := [], [];
      counted := |pending|;
      evidenceSize := Wrap32(|pending|);
      pruningHeight, pruningTime := 0, 0;
      CountAll(pending);
      NothingListed(env, pending);
      new;
      pruningHeight, pruningTime := RemoveExpiredPendingEvidence();
      ListPending();
    }

    /** Lists and counts what the store holds. */
    method ListPending()
      requires Valid()
      modifies this`evidenceList, this`evidenceSize, this`counted
      ensures Valid() && AllListed(pending, evidenceList) && counted == |pending|
    {
      hide ItemCount, KeyOf, Lawful, Filed, Counted, StoreOrder, AllListed, ListFollows, Apart;
      var evs, keys := ListEvidence(-1);
      ListedFiled(env, pending, evs, keys);
      CountAll(pending);
      evidenceList := evs;
      counted := |pending|;
      evidenceSize := Wrap32(|evs|);
    }
  }

  //---------------------------------------------------------------------------
  // Whole runs

  datatype Event =
    | Adds(ev: Evidence)
    | Checks(evList: seq<Evidence>)
    | Reports(votes: VotePair)
    | Updates(next: ChainState, evs: seq<Evidence>)

  ghost predicate ChecksLight(events: seq<Event>) {
    exists e, ev :: e in events && e.Checks? && ev in e.evList && ev.light
  }

  /** A pool at one moment, but for its list. */
  datatype Snap = Snap(pending: map<Key, Evidence>, committed: map<Key, Height>, state: ChainState,
                       buffer: seq<VotePair>, pruningHeight: int, pruningTime: int, counted: nat)

  ghost function ExcessOf(a: Snap): int {
    a.counted - ItemCount(a.pending)
  }

  ghost predicate AddStep(env: Env, a: Snap, ev: Evidence, b: Snap) {
    var key := KeyOf(env, ev);
    && b == a.(pending := b.pending, counted := b.counted) && ExcessOf(b) == ExcessOf(a)
    && b.pending == if key in a.pending || key in a.committed || !Verifies(env, a.state, ev) then a.pending
                    else a.pending[key := ev]
  }

  /** How many items have been put into the store, or found there, when a check ends. */
  function Progress(evList: seq<Evidence>, r: Verdict, at: nat): nat {
    if r == Accepted then |evList| else if r == Repeated then at + 1 else at
  }

  /** The verdict on a list, and the first item at fault if there is one. */
  ghost predicate Judged(env: Env, a: Snap, evList: seq<Evidence>, r: Verdict, at: nat) {
    && (r == Accepted <==> Acceptable(env, a.state, a.committed, a.pending, evList, |evList|))
    && (r != Accepted ==> FirstFault(env, a.state, a.committed, a.pending, evList, at, r))
  }

  ghost predicate CheckStep(env: Env, a: Snap, evList: seq<Evidence>, b: Snap, n: nat) {
    && b == a.(pending := b.pending, counted := b.counted)
    && (exists r, at :: Judged(env, a, evList, r, at) && n == Progress(evList, r, at))
    && Grown(env, a.pending, b.pending, evList, n)
    && ExcessOf(b) == ExcessOf(a) + Readded(env, a.pending, evList, n)
  }

  ghost predicate UpdateStepBy(env: Env, a: Snap, next: ChainState, evs: seq<Evidence>, b: Snap,
                               left: map<Key, Evidence>) {
    && next.height > a.state.height && b.state == next && b.buffer == [] && ExcessOf(b) == ExcessOf(a)
    && b.committed.Keys == a.committed.Keys + KeysOf(env, evs)
    && left.Keys == a.pending.Keys + (FormedKeys(env, a.buffer, next) - a.committed.Keys) - KeysOf(env, evs)
    && (forall k :: k in left && k in a.pending ==> left[k] == a.pending[k])
    && if Due(next, ExcessOf(a) + ItemCount(left), a.pruningHeight, a.pruningTime)
       then WithoutExpired(next, left, b.pending) && PrunesNext(next, b.pending, b.pruningHeight, b.pruningTime)
       else b.pending == left && b.pruningHeight == a.pruningHeight && b.pruningTime == a.pruningTime
  }

  ghost predicate UpdateStep(env: Env, a: Snap, next: ChainState, evs: seq<Evidence>, b: Snap) {
    exists left :: UpdateStepBy(env, a, next, evs, b, left)
  }

  /** What an event does to a pool; n is how far a check got. */
  ghost predicate EventStep(env: Env, a: Snap, e: Event, b: Snap, n: nat) {
    match e
    case Adds(ev) => AddStep(env, a, ev, b)
    case Checks(evList) => CheckStep(env, a, evList, b, n)
    case Reports(votes) => b == a.(buffer := a.buffer + [votes])
    case Updates(next, evs) => UpdateStep(env, a, next, evs, b)
  }

  /** How far a check gets, and by how much the counter gets ahead, is decided by the pool and the list. */
  lemma CheckDetermined(env: Env, a: Snap, evList: seq<Evidence>, b: Snap, n: nat, b': Snap, n': nat)
    requires Lawful(env) && Apart(a.pending, a.committed)
    requires CheckStep(env, a, evList, b, n) && CheckStep(env, a, evList, b', n')
    ensures n == n' && ExcessOf(b) == ExcessOf(b') && b.pending.Keys == b'.pending.Keys
  {
    hide Acceptable, FirstFault, Grown, Readded, ItemCount;
    var r, at :| Judged(env, a, evList, r, at) && n == Progress(evList, r, at);
    var r', at' :| Judged(env, a, evList, r', at') && n' == Progress(evList, r', at');
    if r != Accepted {
      FaultUnique(env, a.state, a.committed, a.pending, evList, at, r, at', r');
    }
    SameGrown(env, a.pending, b.pending, b'.pending, evList, n);
  }

  lemma FaultUnique(env: Env, state: ChainState, committed: map<Key, Height>, before: map<Key, Evidence>,
                    evList: seq<Evidence>, n: nat, r: Verdict, n': nat, r': Verdict)
    requires Lawful(env) && Apart(before, committed)
    requires FirstFault(env, state, committed, before, evList, n, r)
    requires FirstFault(env, state, committed, before, evList, n', r')
    ensures n == n' && r == r'
  {
    hide KeyOf, Lawful, Verifies;
    if n < n' {
      FaultBars(env, state, committed, before, evList, n, r, n');
    }
    if n' < n {
      FaultBars(env, state, committed, before, evList, n', r', n);
    }
  }

  lemma SameGrown(env: Env, before: map<Key, Evidence>, p: map<Key, Evidence>, q: map<Key, Evidence>,
                  evList: seq<Evidence>, n: nat)
    requires Grown(env, before, p, evList, n) && Grown(env, before, q, evList, n)
    ensures p.Keys == q.Keys
  {
    hide Holds;
    assert forall k :: k in p <==> k in q;
  }

  /** What the pool was before each event and after the last, and how far each check got. */
  ghost predicate Traced(env: Env, events: seq<Event>, snaps: seq<Snap>, checked: seq<nat>) {
    && |checked| <= |events| && |snaps| == |checked| + 1
    && forall i :: 0 <= i < |checked| ==> EventStep(env, snaps[i], events[i], snaps[i + 1], checked[i])
  }

  lemma TracedAt(env: Env, events: seq<Event>, snaps: seq<Snap>, checked: seq<nat>, i: nat)
    requires Traced(env, events, snaps, checked) && i < |checked|
    ensures |checked| <= |events| && |snaps| == |checked| + 1
    ensures EventStep(env, snaps[i], events[i], snaps[i + 1], checked[i])
    ensures events[i].Checks? ==> checked[i] <= |events[i].evList|
  {
  }

  /** How many items the checks among the first n events put into the store though they were in it. */
  ghost function ReaddedBy(env: Env, events: seq<Event>, snaps: seq<Snap>, checked: seq<nat>, n: nat): nat
    requires Traced(env, events, snaps, checked) && n <= |checked|
  {
    if n == 0 then 0
    else
      TracedAt(env, events, snaps, checked, n - 1);
      ReaddedBy(env, events, snaps, checked, n - 1) +
      if events[n - 1].Checks? then Readded(env, snaps[n - 1].pending, events[n - 1].evList, checked[n - 1]) else 0
  }

  /** The excess of the counter is what it was, and one more for each item that a check added again. */
  lemma {:induction false} ExcessIsReadded(env: Env, events: seq<Event>, snaps: seq<Snap>, checked: seq<nat>, n: nat)
    requires Traced(env, events, snaps, checked) && n <= |checked|
    ensures |snaps| == |checked| + 1
    ensures ExcessOf(snaps[n]) == ExcessOf(snaps[0]) + ReaddedBy(env, events, snaps, checked, n)
  {
    hide Readded, Judged, Grown, ItemCount, UpdateStepBy;
    if n > 0 {
      TracedAt(env, events, snaps, checked, n - 1);
      ExcessIsReadded(env, events, snaps, checked, n - 1);
      StepExcess(env, snaps[n - 1], events[n - 1], snaps[n], checked[n - 1]);
    }
  }

  lemma StepExcess(env: Env, a: Snap, e: Event, b: Snap, n: nat)
    requires EventStep(env, a, e, b, n)
    ensures e.Checks? ==> n <= |e.evList|
    ensures ExcessOf(b) == ExcessOf(a) + if e.Checks? then Readded(env, a.pending, e.evList, n) else 0
  {
    hide Readded, Judged;
    if e.Updates? {
      var left :| UpdateStepBy(env, a, e.next, e.evs, b, left);
    }
  }

  lemma {:induction false} NoneReaddedBy(env: Env, events: seq<Event>, snaps: seq<Snap>, checked: seq<nat>, n: nat)
    requires Traced(env, events, snaps, checked) && n <= |checked| && !ChecksLight(events)
    ensures ReaddedBy(env, events, snaps, checked, n) == 0
  {
    hide Traced, EventStep, Readded;
    if n > 0 {
      TracedAt(env, events, snaps, checked, n - 1);
      NoneReaddedBy(env, events, snaps, checked, n - 1);
      assert events[n - 1] in events;
      if events[n - 1].Checks? {
        NoneReadded(env, snaps[n - 1].pending, events[n - 1].evList);
      }
    }
  }

  lemma TracedNone(env: Env, events: seq<Event>, a: Snap)
    ensures Traced(env, events, [a], [])
  {
  }

  lemma TracedMore(env: Env, events: seq<Event>, snaps: seq<Snap>, checked: seq<nat>, b: Snap, n: nat)
    requires Traced(env, events, snaps, checked) && |checked| < |events|
    requires |snaps| == |checked| + 1 && EventStep(env, snaps[|checked|], events[|checked|], b, n)
    ensures Traced(env, events, snaps + [b], checked + [n])
  {
    hide EventStep;
    var more, further := snaps + [b], checked + [n];
    forall i | 0 <= i < |further| ensures EventStep(env, more[i], events[i], more[i + 1], further[i]) {
      if i < |checked| {
        assert more[i] == snaps[i] && more[i + 1] == snaps[i + 1] && further[i] == checked[i];
      }
    }
  }

  /** Does what an event says. */
  method Handle(pool: Pool, e: Event) returns (panicked: bool, ghost n: nat)
    requires pool.Valid() && (e.Updates? ==> e.next.time == pool.env.blockTime(e.next.height))
    modifies pool
    ensures pool.Valid() && forall k :: k in old(pool.committed) ==> k in pool.committed
    ensures if panicked then e.Updates? && e.next.height <= old(pool.state).height && unchanged(pool)
            else EventStep(pool.env, old(pool.Snapshot()), e, pool.Snapshot(), n)
  {
    hide ItemCount, KeyOf, Lawful, Filed, Counted, Acceptable, FirstFault, Grown, Readded, HeldLights, Verifies, Due;
    hide WithoutExpired, PrunesNext, KeysOf, OldestLives, NothingExpired, ListFollows;
    ghost var a := pool.Snapshot();
    panicked, n := false, 0;
    match e {
      case Adds(ev) =>
        var _ := pool.AddEvidence(ev);
      case Checks(evList) =>
        var r, at := pool.CheckEvidence(evList);
        n := Progress(evList, r, at);
        assert Judged(pool.env, a, evList, r, at);
      case Reports(votes) =>
        pool.ReportConflictingVotes(votes);
      case Updates(next, evs) =>
        var failed, left := pool.Update(next, evs);
        panicked := failed;
        assert !panicked ==> UpdateStepBy(pool.env, a, next, evs, pool.Snapshot(), left);
    }
  }

  /**
    However the operations follow each other, the store, the list and the counter agree: the counter never falls
    behind the items, and gets ahead of them by exactly the items that checks of blocks have added again, which are
    about light clients.
  */
  method Run(pool: Pool, events: seq<Event>) returns (panicked: bool, ghost snaps: seq<Snap>, ghost checked: seq<nat>)
    requires pool.Valid()
    requires forall e :: e in events && e.Updates? ==> e.next.time == pool.env.blockTime(e.next.height)
    modifies pool
    ensures pool.Valid()
    ensures forall k :: k in old(pool.committed) ==> k in pool.committed
    ensures forall e :: e in pool.evidenceList ==>
      KeyOf(pool.env, e) in pool.pending && KeyOf(pool.env, e) !in pool.committed
    ensures Traced(pool.env, events, snaps, checked)
    ensures snaps[0] == old(pool.Snapshot()) && snaps[|checked|] == pool.Snapshot()
    ensures pool.Excess() == old(pool.Excess()) + ReaddedBy(pool.env, events, snaps, checked, |checked|)
    ensures !ChecksLight(events) ==> pool.Excess() == old(pool.Excess())
    ensures if panicked then |checked| < |events| && events[|checked|].Updates? &&
                             events[|checked|].next.height <= pool.state.height
            else |checked| == |events|
  {
    hide ItemCount, KeyOf, Lawful, Filed, Counted, EventStep, Traced, ReaddedBy;
    snaps, checked := [pool.Snapshot()], [];
    TracedNone(pool.env, events, pool.Snapshot());
    panicked := false;
    for i := 0 to |events|
      invariant pool.Valid() && |checked| == i && |snaps| == i + 1
      invariant forall k :: k in old(pool.committed) ==> k in pool.committed
      invariant Traced(pool.env, events, snaps, checked)
      invariant snaps[0] == old(pool.Snapshot()) && snaps[i] == pool.Snapshot()
    {
      assert events[i] in events;
      var failed, n := Handle(pool, events[i]);
      if failed {
        panicked := true;
        break;
      }
      TracedMore(pool.env, events, snaps, checked, pool.Snapshot(), n);
      snaps, checked := snaps + [pool.Snapshot()], checked + [n];
    }
    ExcessIsReadded(pool.env, events, snaps, checked, |checked|);
    if !ChecksLight(events) {
      NoneReaddedBy(pool.env, events, snaps, checked, |checked|);
    }
  }

  //---------------------------------------------------------------------------
  // The counter does not count the items

  lemma OneHeld(env: Env, state: ChainState, committed: map<Key, Height>, before: map<Key, Evidence>, ev: Evidence)
    requires ev.light && KeyOf(env, ev) in before && Sound(env, state, committed, ev)
    ensures Acceptable(env, state, committed, before, [ev], 1) && |HeldLights(env, before, [ev], 1)| == 1
  {
    assert HeldLights(env, before, [ev], 1) == {0};
  }

  /** An item about a light client that is in the store is counted once more when it comes in a block. */
  method CountAgain(pool: Pool, ev: Evidence) returns (r: Verdict)
    requires pool.Valid() && ev.light && KeyOf(pool.env, ev) in pool.pending && Verifies(pool.env, pool.state, ev)
    modifies pool`pending, pool`evidenceSize, pool`counted
    ensures pool.Valid() && r == Accepted
    ensures pool.pending.Keys == old(pool.pending).Keys && pool.counted == old(pool.counted) + 1
  {
    hide KeyOf, Lawful, Filed, Counted, Verifies, Acceptable, HeldLights;
    OneHeld(pool.env, pool.state, pool.committed, pool.pending, ev);
    ghost var before, n: nat := pool.pending, 0;
    r, n := pool.CheckEvidence([ev]);
    SameItems(pool.env, before, pool.pending, ev);
  }

  lemma SameItems(env: Env, before: map<Key, Evidence>, after: map<Key, Evidence>, ev: Evidence)
    requires KeyOf(env, ev) in before && Grown(env, before, after, [ev], 1)
    ensures before.Keys == after.Keys && ItemCount(before) == ItemCount(after)
  {
    hide KeyOf;
    forall k ensures k in before <==> k in after {
      assert Holds(env, before, [ev], 1, k) <==> k in before;
    }
    assert before.Keys == after.Keys;
    assert |before| == |before.Keys| && |after| == |after.Keys|;
  }

  /** The same of a whole run that is one such check, by what holds of all runs. */
  method OneCheckRun(pool: Pool, ev: Evidence)
    requires pool.Valid() && ev.light && KeyOf(pool.env, ev) in pool.pending && Verifies(pool.env, pool.state, ev)
    modifies pool
    ensures pool.Valid() && pool.Excess() == old(pool.Excess()) + 1 && pool.pending.Keys == old(pool.pending).Keys
  {
    hide KeyOf, Lawful, Filed, Counted, Verifies, Acceptable, ReaddedBy, HeldLights, Grown, Readded, FirstFault;
    hide ItemCount;
    OneHeld(pool.env, pool.state, pool.committed, pool.pending, ev);
    ghost var env, a := pool.env, pool.Snapshot();
    var events := [Checks([ev])];
    var panicked, snaps, checked := Run(pool, events);
    TracedAt(env, events, snaps, checked, 0);
    StepExcess(env, snaps[0], events[0], snaps[1], checked[0]);
    ReaddedAreHeld(env, a.state, a.committed, a.pending, [ev], 1);
    SameItems(env, a.pending, pool.pending, ev);
  }

  function ExampleEnv(): Env {
    Env((ev: Evidence) => [ev.height], h => h, _ => true, _ => true, (_, _) => None, _ => 0)
  }

  lemma ExampleLawful()
    ensures Lawful(ExampleEnv())
  {
    var env := ExampleEnv();
    forall a, b | env.hash(a) == env.hash(b) ensures a.height == b.height {
      assert env.hash(a)[0] == a.height && env.hash(b)[0] == b.height;
    }
  }

  lemma ExampleStore(ev: Evidence, state: ChainState, pending: map<Key, Evidence>)
    requires ev == Evidence(1, 1, true, 0) && state == ChainState(1, 1, 10, 10)
    requires WithoutExpired(state, map[KeyOf(ExampleEnv(), ev) := ev], pending)
    ensures pending == map[KeyOf(ExampleEnv(), ev) := ev] && |pending| == 1 && Verifies(ExampleEnv(), state, ev)
  {
    assert ExpiredKeys(state, map[KeyOf(ExampleEnv(), ev) := ev]) == {};
  }

  /** A pool of one item that counts two. */
  method LightCountedTwice() returns (pool: Pool, r: Verdict)
    ensures fresh(pool) && pool.Valid() && r == Accepted && |pool.pending| == 1 && pool.evidenceSize == 2
  {
    hide KeyOf, Lawful, Filed, Verifies, WithoutExpired, AllListed, ListFollows, ExampleEnv;
    var env := ExampleEnv();
    var ev, state := Evidence(1, 1, true, 0), ChainState(1, 1, 10, 10);
    ExampleLawful();
    ExampleFiled(ev);
    pool := new Pool(env, map[KeyOf(env, ev) := ev], map[], state);
    ExampleStore(ev, state, pool.pending);
    ghost var keys := pool.pending.Keys;
    r := CountAgain(pool, ev);
    assert |pool.pending| == |pool.pending.Keys| == |keys|;
  }

  /** After as many checks as the counter has values it is zero, and the one item there is not offered. */
  method CounterWraps() returns (pool: Pool, evs: seq<Evidence>)
    ensures fresh(pool) && pool.Valid() && |pool.pending| == 1 && pool.evidenceSize == 0 && evs == []
  {
    hide KeyOf, Lawful, Filed, Verifies, WithoutExpired, AllListed, ListFollows, ExampleEnv, PrunesNext, Fills;
    hide NoneFits, StoreOrder, ItemCount;
    var env := ExampleEnv();
    var ev, state := Evidence(1, 1, true, 0), ChainState(1, 1, 10, 10);
    ExampleLawful();
    ExampleFiled(ev);
    pool := new Pool(env, map[KeyOf(env, ev) := ev], map[], state);
    ExampleStore(ev, state, pool.pending);
    ghost var keys := pool.pending.Keys;
    for i := 1 to UINT32
      invariant fresh(pool) && pool.Valid() && pool.env == env && pool.state == state
      invariant pool.pending.Keys == keys && pool.counted == i
    {
      var _ := CountAgain(pool, ev);
    }
    assert |pool.pending| == |pool.pending.Keys|;
    ghost var order;
    evs, order := pool.PendingEvidence(-1);
  }

  lemma ExampleFiled(ev: Evidence)
    requires ev == Evidence(1, 1, true, 0)
    ensures Filed(ExampleEnv(), map[KeyOf(ExampleEnv(), ev) := ev])
  {
  }

  //---------------------------------------------------------------------------
  // Expired evidence can stay

  lemma ExampleMarks(ev: Evidence, state: ChainState, pending: map<Key, Evidence>, height: int, time: int)
    requires ev == Evidence(1, 1, true, 0) && state == ChainState(1, 1, 10, 10)
    requires pending == map[KeyOf(ExampleEnv(), ev) := ev] && PrunesNext(state, pending, height, time)
    ensures height == 12
  {
    hide KeyOf, ExampleEnv;
    var k := KeyOf(ExampleEnv(), ev);
    assert k in pending;
    assert forall x :: IsOldest(pending, x) ==> pending[x] == ev;
  }

  /** One block past its age, an item has expired and is still pending. */
  method ExpiredStays() returns (pool: Pool)
    ensures fresh(pool) && pool.Valid() && pool.state == ChainState(12, 12, 10, 10)
    ensures |pool.pending| == 1 && !NothingExpired(pool.state, pool.pending)
  {
    hide KeyOf, Lawful, Filed, WithoutExpired, AllListed, ListFollows, ExampleEnv, PrunesNext, OldestLives, KeysOf;
    var env := ExampleEnv();
    var ev, state, next := Evidence(1, 1, true, 0), ChainState(1, 1, 10, 10), ChainState(12, 12, 10, 10);
    ExampleLawful();
    ExampleFiled(ev);
    pool := new Pool(env, map[KeyOf(env, ev) := ev], map[], state);
    ExampleStore(ev, state, pool.pending);
    ExampleMarks(ev, state, pool.pending, pool.pruningHeight, pool.pruningTime);
    ExampleTime(12);
    ghost var key := KeyOf(env, ev);
    var panicked, left := pool.Update(next, []);
    NoKeys(env);
    assert left.Keys == {key} by {
      assert FormedKeys(env, [], next) == {};
    }
    assert left == map[key := ev];
    assert |left| == |left.Keys|;
    assert pool.pending[key] == ev;
  }

  lemma ExampleTime(h: nat)
    ensures ExampleEnv().blockTime(h) == h
  {
  }
}
