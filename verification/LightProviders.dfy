/**
  The light client object: its primary and witnesses, how it replaces a primary,
  and the verifications that survive such replacements (light/client.go).
*/
module LightProviders {
  import opened Power
  import opened LightVerifier
  import opened LightClient

  type ProviderID = nat

  //---------------------------------------------------------------------------
  // Sorting the indexes of the witnesses to remove

  ghost predicate Ascending(s: seq<nat>) {
    forall i, j :: 0 <= i < j < |s| ==> s[i] < s[j]
  }

  ghost predicate Distinct(s: seq<nat>) {
    forall i, j :: 0 <= i < j < |s| ==> s[i] != s[j]
  }

  function Insert(s: seq<nat>, x: nat): (r: seq<nat>)
    ensures |r| == |s| + 1
    ensures forall y :: y in r <==> y == x || y in s
  {
    if s == [] || x <= s[0] then [x] + s
    else
      assert s == [s[0]] + s[1..];
      [s[0]] + Insert(s[1..], x)
  }

  lemma {:induction false} InsertAscends(s: seq<nat>, x: nat)
    requires Ascending(s) && x !in s
    ensures Ascending(Insert(s, x))
    decreases |s|
  {
    if s != [] && x > s[0] {
      var rest := Insert(s[1..], x);
      InsertAscends(s[1..], x);
      forall k | 0 <= k < |rest| ensures s[0] < rest[k] {
        assert rest[k] in rest;
      }
    }
  }

  function SortInts(s: seq<nat>): (r: seq<nat>)
    ensures |r| == |s|
    ensures forall y :: y in r <==> y in s
  {
    if s == [] then [] else
    assert s == [s[0]] + s[1..];
    Insert(SortInts(s[1..]), s[0])
  }

  lemma {:induction false} SortAscends(s: seq<nat>)
    requires Distinct(s)
    ensures Ascending(SortInts(s))
    decreases |s|
  {
    if s != [] {
      SortAscends(s[1..]);
      InsertAscends(SortInts(s[1..]), s[0]);
    }
  }

  /** `kept` are the positions of the old list that remain, in their new order. */
  ghost predicate Keeps(before: seq<ProviderID>, now: seq<ProviderID>, kept: seq<nat>) {
    && |kept| == |now|
    && Distinct(kept)
    && (forall i :: 0 <= i < |kept| ==> kept[i] < |before| && now[i] == before[kept[i]])
  }

  /** Moves the last element into the gap. */
  function SwapRemove<T>(s: seq<T>, gap: nat): (r: seq<T>)
    requires gap < |s|
  {
    s[gap := s[|s| - 1]][..|s| - 1]
  }

  lemma SwapRemoveKeeps(before: seq<ProviderID>, now: seq<ProviderID>, kept: seq<nat>, gap: nat)
    requires Keeps(before, now, kept) && gap < |now|
    ensures Keeps(before, SwapRemove(now, gap), SwapRemove(kept, gap))
    ensures forall k :: k in SwapRemove(kept, gap) <==> k in kept && k != kept[gap]
  {
    var r, last := SwapRemove(kept, gap), |kept| - 1;
    assert forall j :: 0 <= j < last ==> r[j] == if j == gap then kept[last] else kept[j];
    forall k | k in kept && k != kept[gap] ensures k in r {
      var j :| 0 <= j < |kept| && kept[j] == k;
      assert if j == last then r[gap] == k else r[j] == k;
    }
  }

  /** The witnesses at positions sorted[i..] are gone; those below are where they were. */
  ghost predicate Removed(before: seq<ProviderID>, now: seq<ProviderID>, kept: seq<nat>, sorted: seq<nat>, i: nat) {
    && i <= |sorted|
    && Keeps(before, now, kept)
    && |now| == |before| - (|sorted| - i)
    && (forall j :: 0 <= j < i ==> sorted[j] < |now| && kept[sorted[j]] == sorted[j])
    && (forall k :: 0 <= k < |before| ==> (k in kept <==> k !in sorted[i..]))
  }

  lemma RemovedInit(ws: seq<ProviderID>, sorted: seq<nat>)
    requires forall i :: 0 <= i < |sorted| ==> sorted[i] < |ws|
    ensures Removed(ws, ws, seq(|ws|, k => k), sorted, |sorted|)
  {
    var kept := seq(|ws|, k => k);
    forall k | 0 <= k < |ws| ensures k in kept {
      assert kept[k] == k;
    }
  }

  lemma RemovedStep(before: seq<ProviderID>, now: seq<ProviderID>, kept: seq<nat>, sorted: seq<nat>, i: nat)
    requires 0 < i <= |sorted| && Ascending(sorted) && Removed(before, now, kept, sorted, i)
    ensures var gap := sorted[i - 1];
      gap < |now| == |kept| && Removed(before, SwapRemove(now, gap), SwapRemove(kept, gap), sorted, i - 1)
  {
    hide Keeps;
    var gap := sorted[i - 1];
    assert |kept| == |now| by { assert Keeps(before, now, kept); KeepsSize(before, now, kept); }
    SwapRemoveKeeps(before, now, kept, gap);
    assert sorted[i - 1..] == [gap] + sorted[i..];
  }

  lemma RemovedDone(before: seq<ProviderID>, now: seq<ProviderID>, kept: seq<nat>, sorted: seq<nat>)
    requires Removed(before, now, kept, sorted, 0)
    ensures Keeps(before, now, kept) && |now| == |before| - |sorted|
    ensures forall k :: 0 <= k < |before| ==> (k in kept <==> k !in sorted)
  {
    assert sorted[0..] == sorted;
  }

  lemma KeptFrom(before: seq<ProviderID>, now: seq<ProviderID>, kept: seq<nat>)
    requires Keeps(before, now, kept)
    ensures forall w :: w in now ==> w in before
  {
  }

  lemma KeepsSize(before: seq<ProviderID>, now: seq<ProviderID>, kept: seq<nat>)
    requires Keeps(before, now, kept)
    ensures |kept| == |now|
  {
  }

  /** Takes out the element at a position. */
  function DropAt(s: seq<nat>, k: nat): (r: seq<nat>)
    requires k < |s|
    ensures |r| == |s| - 1
    ensures forall x :: x in s <==> x in r || x == s[k]
    ensures Distinct(s) ==> Distinct(r) && s[k] !in r
  {
    s[..k] + s[k + 1..]
  }

  lemma DistinctAppend(s: seq<nat>, x: nat)
    requires Distinct(s) && x !in s
    ensures Distinct(s + [x])
  {
  }

  /** Moving an element from one list to the end of another keeps all elements different. */
  lemma DistinctMoves(s: seq<nat>, t: seq<nat>, k: nat)
    requires Distinct(s + t) && k < |t|
    ensures t[k] !in s && Distinct(s + [t[k]] + DropAt(t, k))
  {
    var u := s + t;
    assert forall i :: 0 <= i < |s| ==> u[i] == s[i];
    assert forall i :: 0 <= i < |t| ==> u[|s| + i] == t[i];
  }

  lemma DistinctStarts(s: seq<nat>, t: seq<nat>)
    requires Distinct(s + t)
    ensures Distinct(s)
  {
    assert forall i :: 0 <= i < |s| ==> (s + t)[i] == s[i];
  }

  lemma {:induction false} DistinctBound(s: seq<nat>, n: nat)
    requires Distinct(s) && forall k :: 0 <= k < |s| ==> s[k] < n
    ensures |s| <= n
    decreases n
  {
    if s != [] {
      assert s[0] < n;
      if p :| 0 <= p < |s| && s[p] == n - 1 {
        var rest := DropAt(s, p);
        forall k | 0 <= k < |rest| ensures rest[k] < n - 1 {
          assert rest[k] in rest;
        }
        DistinctBound(rest, n - 1);
      } else {
        DistinctBound(s, n - 1);
      }
    }
  }

  /** As many different indexes as there are positions are all of them. */
  lemma AllIndexes(s: seq<nat>, n: nat)
    requires Distinct(s) && |s| >= n && forall i :: i in s ==> i < n
    ensures forall i: nat :: i < n ==> i in s
  {
    forall i: nat | i < n ensures i in s {
      if i !in s {
        var more := s + [i];
        forall k | 0 <= k < |more| ensures more[k] < n {
          assert k < |s| ==> more[k] in s;
        }
        DistinctBound(more, n);
      }
    }
  }

  //---------------------------------------------------------------------------
  // Hash chains and adjacent chains

  /** Each header is the one that the header before it points back at. */
  ghost predicate HashPath(env: Env, path: seq<Header>) {
    && path != []
    && forall i :: 0 <= i < |path| - 1 ==>
         VerifyBackwards(env, path[i + 1], path[i]) && path[i + 1].height + 1 == path[i].height
  }

  lemma HashPathExtends(env: Env, path: seq<Header>, h: Header)
    requires HashPath(env, path)
    requires VerifyBackwards(env, h, path[|path| - 1]) && h.height + 1 == path[|path| - 1].height
    ensures HashPath(env, path + [h])
  {
  }

  lemma HashPathJoins(env: Env, path: seq<Header>, rest: seq<Header>)
    requires HashPath(env, path) && HashPath(env, rest) && rest[0] == path[|path| - 1]
    ensures HashPath(env, path + rest[1..])
  {
    var whole := path + rest[1..];
    forall i | 0 <= i < |whole| - 1
      ensures VerifyBackwards(env, whole[i + 1], whole[i]) && whole[i + 1].height + 1 == whole[i].height
    {
      if |path| - 1 <= i {
        var j := i - (|path| - 1);
        assert whole[i] == rest[j] && whole[i + 1] == rest[j + 1];
      }
    }
  }

  /** There is only one way back: hash paths from one header agree, whoever provided the headers. */
  lemma {:induction false} HashPathsAgree(env: Env, s: seq<Header>, t: seq<Header>, i: nat)
    requires Collisionless(env) && HashPath(env, s) && HashPath(env, t) && s[0] == t[0]
    requires i < |s| && i < |t|
    ensures s[i] == t[i]
    decreases i
  {
    if i > 0 {
      HashPathsAgree(env, s, t, i - 1);
      assert VerifyBackwards(env, s[i - 1 + 1], s[i - 1]) && VerifyBackwards(env, t[i - 1 + 1], t[i - 1]);
    }
  }

  lemma {:induction false} HashPathHeights(env: Env, path: seq<Header>, i: nat)
    requires HashPath(env, path) && i < |path|
    ensures path[i].height + i == path[0].height
  {
    if i > 0 {
      HashPathHeights(env, path, i - 1);
      assert path[i - 1 + 1].height + 1 == path[i - 1].height;
    }
  }

  /** Going back by hashes stays on the chain and goes back in time, over well-formed headers. */
  lemma {:induction false} HashPathOrdered(env: Env, path: seq<Header>, i: nat, j: nat)
    requires HashPath(env, path) && i < j < |path|
    ensures path[j].chainID == path[i].chainID && path[j].time < path[i].time && env.wellFormed(path[j])
    decreases j
  {
    assert VerifyBackwards(env, path[j - 1 + 1], path[j - 1]);
    if i < j - 1 {
      HashPathOrdered(env, path, i, j - 1);
    }
  }

  /** A well-formed header of the same chain, from earlier, with the hash that the next one names as its last. */
  ghost predicate PointedAt(env: Env, h: Header, next: Header) {
    && env.wellFormed(h) && h.chainID == next.chainID && h.time < next.time
    && env.hash(h) == next.lastBlockHash
  }

  /** Going back from `trusted` by hashes leads to a header with the hash of `target`. */
  ghost predicate ReachedBackwards(env: Env, trusted: Header, target: Header) {
    exists path: seq<Header> :: HashPath(env, path) && path[0] == trusted && path[|path| - 1].height <= target.height &&
      env.hash(path[|path| - 1]) == env.hash(target)
  }

  /** Two headers of one height that were both reached backwards from one trusted header are the same. */
  lemma BackwardsAgree(env: Env, trusted: Header, a: Header, b: Header)
    requires Collisionless(env) && ReachedBackwards(env, trusted, a) && ReachedBackwards(env, trusted, b)
    requires a.height == b.height
    ensures a == b
  {
    var s: seq<Header> :| HashPath(env, s) && s[0] == trusted && s[|s| - 1].height <= a.height &&
      env.hash(s[|s| - 1]) == env.hash(a);
    var t: seq<Header> :| HashPath(env, t) && t[0] == trusted && t[|t| - 1].height <= b.height &&
      env.hash(t[|t| - 1]) == env.hash(b);
    HashPathHeights(env, s, |s| - 1);
    HashPathHeights(env, t, |t| - 1);
    HashPathsAgree(env, s, t, |s| - 1);
  }

  /** A request to a provider for a height, or for its latest block if that is 0. */
  datatype Sent = Sent(to: ProviderID, height: nat)

  /** Skipping verification towards a block with one primary, from some request on. */
  datatype Attempt = Attempt(primary: ProviderID, lo: nat, target: LightBlock)

  class Client {
    const env: Env
    const cfg: Config
    const answers: (ProviderID, nat, nat) -> Response   // provider, request number, height
    const arrivals: nat -> nat                          // which outstanding response arrives next
    var primary: ProviderID
    var witnesses: seq<ProviderID>
    var requests: seq<Sent>                             // the requests so far, in order

    constructor (env: Env, cfg: Config, answers: (ProviderID, nat, nat) -> Response, arrivals: nat -> nat,
                 primary: ProviderID, witnesses: seq<ProviderID>)
      ensures this.env == env && this.cfg == cfg && this.primary == primary && this.witnesses == witnesses
    {
      this.env := env;
      this.cfg := cfg;
      this.answers := answers;
      this.arrivals := arrivals;
      this.primary := primary;
      this.witnesses := witnesses;
      this.requests := [];
    }

    /** A provider as it answers from its k-th request on. */
    function Asked(source: ProviderID, from: nat): Provider {
      (k: nat, h: nat) => answers(source, from + k, h)
    }

    /** Asks one provider for a block. */
    method Request(from: ProviderID, height: nat) returns (r: Response)
      modifies this`requests
      ensures r == Answer(from, |old(requests)|, height) && requests == old(requests) + [Sent(from, height)]
      ensures r.Found? ==> r.block.header.height == height
    {
      r := Checked(answers(from, |requests|, height), height);
      requests := requests + [Sent(from, height)];
    }

    /** Asks one provider for its latest block. */
    method RequestLatest(from: ProviderID) returns (r: Response)
      modifies this`requests
      ensures r == answers(from, |old(requests)|, 0) && requests == old(requests) + [Sent(from, 0)]
    {
      r := answers(from, |requests|, 0);
      requests := requests + [Sent(from, 0)];
    }

    /**
      Removes the witnesses at the given positions by moving the last one into each
      gap, highest position first. Nothing is removed if no witness would be left.
    */
    method RemoveWitnesses(indexes: seq<nat>) returns (ok: bool, ghost kept: seq<nat>)
      requires Distinct(indexes) && forall i :: i in indexes ==> i < |witnesses|
      modifies this`witnesses
      ensures ok == (|indexes| < |old(witnesses)|)
      ensures !ok ==> witnesses == old(witnesses)
      ensures ok ==> Keeps(old(witnesses), witnesses, kept) && |witnesses| == |old(witnesses)| - |indexes|
      ensures ok ==> forall k :: 0 <= k < |old(witnesses)| ==> (k in kept <==> k !in indexes)
    {
      hide Removed, Keeps, Ascending, Distinct;
      ghost var before := witnesses;
      if |witnesses| <= |indexes| {
        return false, [];
      }
      var sorted := SortInts(indexes);
      SortAscends(indexes);
      assert forall j :: 0 <= j < |sorted| ==> sorted[j] in indexes;
      kept := seq(|witnesses|, k => k);
      RemovedInit(before, sorted);
      var i := |sorted|;
      while i > 0
        invariant 0 <= i <= |sorted|
        invariant Removed(before, witnesses, kept, sorted, i)
      {
        RemovedStep(before, witnesses, kept, sorted, i);
        i := i - 1;
        witnesses := witnesses[sorted[i] := witnesses[|witnesses| - 1]];
        witnesses := witnesses[..|witnesses| - 1];
        kept := SwapRemove(kept, sorted[i]);
      }
      RemovedDone(before, witnesses, kept, sorted);
      ok := true;
    }

    //-------------------------------------------------------------------------
    // What providers answered to the requests sent, from the lo-th on

    function Answer(p: ProviderID, k: nat, height: nat): Response {
      Checked(answers(p, k, height), height)
    }

    /** The provider gave no block of this height. */
    ghost predicate Withheld(p: ProviderID, height: nat, lo: nat, sent: seq<Sent>) {
      exists k :: lo <= k < |sent| && sent[k] == Sent(p, height) && !Answer(p, k, height).Found?
    }

    /** The provider gave this block for its height. */
    ghost predicate Gave(p: ProviderID, b: LightBlock, lo: nat, sent: seq<Sent>) {
      exists k :: lo <= k < |sent| && sent[k] == Sent(p, b.header.height) && Answer(p, k, b.header.height) == Found(b)
    }

    /** One of the providers gave this block. */
    ghost predicate SomeGave(ps: set<ProviderID>, b: LightBlock, lo: nat, sent: seq<Sent>) {
      exists p :: p in ps && Gave(p, b, lo, sent)
    }

    /** The primary and the witnesses. */
    ghost function Providers(): set<ProviderID>
      reads this
    {
      {primary} + set w | w in witnesses
    }

    lemma GaveWidens(ps: set<ProviderID>, qs: set<ProviderID>, b: LightBlock, lo: nat, sent: seq<Sent>, lo': nat,
                     sent': seq<Sent>)
      requires SomeGave(ps, b, lo, sent) && ps <= qs && lo' <= lo && sent <= sent'
      ensures SomeGave(qs, b, lo', sent')
    {
      var p :| p in ps && Gave(p, b, lo, sent);
      assert Gave(p, b, lo', sent');
    }

    //-------------------------------------------------------------------------
    // Looking for a new primary

    /** The order in which outstanding answers arrive, from the k-th request on. */
    ghost function ArrivalOrder(outstanding: seq<nat>, k: nat): seq<nat>
      decreases |outstanding|
    {
      if outstanding == [] then []
      else
        var next := arrivals(k) % |outstanding|;
        [outstanding[next]] + ArrivalOrder(DropAt(outstanding, next), k + 1)
    }

    /** The i-th answer, when the witnesses at the positions in `order` were asked in turn. */
    ghost function Reply(ws: seq<ProviderID>, order: seq<nat>, lo: nat, height: nat, i: nat): Response
      requires i < |order| && order[i] < |ws|
    {
      Answer(ws[order[i]], lo + i, height)
    }

    /** The requests that this takes. */
    ghost function Polls(ws: seq<ProviderID>, order: seq<nat>, height: nat): (r: seq<Sent>)
      requires forall i :: 0 <= i < |order| ==> order[i] < |ws|
      ensures |r| == |order|
    {
      seq(|order|, i requires 0 <= i < |order| => Sent(ws[order[i]], height))
    }

    lemma PollsNext(ws: seq<ProviderID>, order: seq<nat>, index: nat, height: nat)
      requires index < |ws| && forall i :: 0 <= i < |order| ==> order[i] < |ws|
      ensures forall i :: 0 <= i < |order + [index]| ==> (order + [index])[i] < |ws|
      ensures Polls(ws, order + [index], height) == Polls(ws, order, height) + [Sent(ws[index], height)]
    {
    }

    /** Each answer comes from another witness, in the order of arrival, and the first that is a block is the last. */
    ghost predicate Polled(ws: seq<ProviderID>, order: seq<nat>, lo: nat, height: nat) {
      && Distinct(order) && |order| <= |ws| && (forall i :: 0 <= i < |order| ==> order[i] < |ws|)
      && order <= ArrivalOrder(seq(|ws|, k => k), lo)
      && (forall i :: 0 <= i < |order| - 1 ==> !Reply(ws, order, lo, height, i).Found?)
    }

    /** The last answer is a block. */
    ghost predicate Responded(ws: seq<ProviderID>, order: seq<nat>, lo: nat, height: nat)
      requires Polled(ws, order, lo, height)
    {
      order != [] && Reply(ws, order, lo, height, |order| - 1).Found?
    }

    /** All the witnesses were asked, and all before the n-th answer misbehaved. */
    ghost predicate OthersMisbehaved(ws: seq<ProviderID>, order: seq<nat>, lo: nat, height: nat, n: nat)
      requires Polled(ws, order, lo, height) && n <= |order|
    {
      |order| == |ws| && forall i :: 0 <= i < n ==> Reply(ws, order, lo, height, i) == Malevolent
    }

    /** The positions whose answers misbehaved, in the order of their answers. */
    ghost function Bad(ws: seq<ProviderID>, order: seq<nat>, lo: nat, height: nat, n: nat): (bad: seq<nat>)
      requires n <= |order| && forall i :: 0 <= i < |order| ==> order[i] < |ws|
      ensures |bad| <= n
      ensures forall j :: j in bad <==>
        exists i :: 0 <= i < n && order[i] == j && Reply(ws, order, lo, height, i) == Malevolent
    {
      if n == 0 then []
      else
        var rest := Bad(ws, order, lo, height, n - 1);
        if Reply(ws, order, lo, height, n - 1) == Malevolent then rest + [order[n - 1]] else rest
    }

    lemma {:induction false} BadIsAll(ws: seq<ProviderID>, order: seq<nat>, lo: nat, height: nat, n: nat)
      requires n <= |order| && forall i :: 0 <= i < |order| ==> order[i] < |ws|
      ensures |Bad(ws, order, lo, height, n)| == n <==>
        forall i :: 0 <= i < n ==> Reply(ws, order, lo, height, i) == Malevolent
    {
      if n > 0 {
        BadIsAll(ws, order, lo, height, n - 1);
      }
    }

    lemma {:induction false} BadDistinct(ws: seq<ProviderID>, order: seq<nat>, lo: nat, height: nat, n: nat)
      requires Distinct(order) && n <= |order| && forall i :: 0 <= i < |order| ==> order[i] < |ws|
      ensures Distinct(Bad(ws, order, lo, height, n))
    {
      if n > 0 {
        BadDistinct(ws, order, lo, height, n - 1);
        var rest := Bad(ws, order, lo, height, n - 1);
        forall j | j in rest ensures j != order[n - 1] {
          var i :| 0 <= i < n - 1 && order[i] == j;
        }
        DistinctAppend(rest, order[n - 1]);
      }
    }

    lemma {:induction false} BadStays(ws: seq<ProviderID>, order: seq<nat>, lo: nat, height: nat, n: nat, index: nat)
      requires n <= |order| && index < |ws| && forall i :: 0 <= i < |order| ==> order[i] < |ws|
      ensures Bad(ws, order + [index], lo, height, n) == Bad(ws, order, lo, height, n)
    {
      if n > 0 {
        BadStays(ws, order, lo, height, n - 1, index);
        assert (order + [index])[n - 1] == order[n - 1];
      }
    }

    /** Halfway through asking the witnesses: who has answered, who has not, and who misbehaved. */
    ghost predicate Polling(ws: seq<ProviderID>, order: seq<nat>, outstanding: seq<nat>, toRemove: seq<nat>, lo: nat,
                            height: nat) {
      && Polled(ws, order, lo, height)
      && Distinct(order + outstanding) && |order| + |outstanding| == |ws|
      && (forall i :: 0 <= i < |outstanding| ==> outstanding[i] < |ws|)
      && ArrivalOrder(seq(|ws|, k => k), lo) == order + ArrivalOrder(outstanding, lo + |order|)
      && (forall i :: 0 <= i < |order| ==> !Reply(ws, order, lo, height, i).Found?)
      && toRemove == Bad(ws, order, lo, height, |order|)
    }

    lemma PollStarts(ws: seq<ProviderID>, lo: nat, height: nat)
      ensures Polling(ws, [], seq(|ws|, k => k), [], lo, height)
    {
    }

    lemma ArrivesNext(outstanding: seq<nat>, k: nat)
      requires outstanding != []
      ensures var next := arrivals(k) % |outstanding|;
        ArrivalOrder(outstanding, k) == [outstanding[next]] + ArrivalOrder(DropAt(outstanding, next), k + 1)
    {
    }

    lemma PollOrder(ws: seq<ProviderID>, order: seq<nat>, outstanding: seq<nat>, toRemove: seq<nat>, lo: nat,
                    height: nat)
      requires Polling(ws, order, outstanding, toRemove, lo, height) && outstanding != []
      ensures var next := arrivals(lo + |order|) % |outstanding|;
        var more, rest := order + [outstanding[next]], DropAt(outstanding, next);
        && outstanding[next] < |ws| && outstanding[next] !in order && |more| <= |ws| && Distinct(more + rest)
        && (forall i :: 0 <= i < |rest| ==> rest[i] < |ws|)
        && ArrivalOrder(seq(|ws|, k => k), lo) == more + ArrivalOrder(rest, lo + |more|)
    {
      hide Polled, Reply, Bad, DropAt, ArrivalOrder, Distinct;
      var next := arrivals(lo + |order|) % |outstanding|;
      var more, rest := order + [outstanding[next]], DropAt(outstanding, next);
      DistinctMoves(order, outstanding, next);
      DistinctStarts(more, rest);
      forall i | 0 <= i < |rest| ensures rest[i] < |ws| {
        assert rest[i] in rest;
      }
      ArrivesNext(outstanding, lo + |order|);
      assert more + ArrivalOrder(rest, lo + |more|) == order + ArrivalOrder(outstanding, lo + |order|);
    }

    lemma PolledMore(ws: seq<ProviderID>, order: seq<nat>, lo: nat, height: nat, index: nat)
      requires Polled(ws, order, lo, height) &&
        (forall i :: 0 <= i < |order| ==> !Reply(ws, order, lo, height, i).Found?)
      requires index < |ws| && index !in order && |order| < |ws| &&
        order + [index] <= ArrivalOrder(seq(|ws|, k => k), lo)
      ensures Polled(ws, order + [index], lo, height)
      ensures Reply(ws, order + [index], lo, height, |order|) == Answer(ws[index], lo + |order|, height)
      ensures forall i :: 0 <= i < |order| ==> !Reply(ws, order + [index], lo, height, i).Found?
    {
      hide Answer, ArrivalOrder;
      var more := order + [index];
      assert forall i :: 0 <= i < |order| ==> more[i] == order[i];
      assert forall i :: 0 <= i < |order| ==> Reply(ws, more, lo, height, i) == Reply(ws, order, lo, height, i);
    }

    /** The next answer: the witness is promoted, passed over, or noted for removal. */
    lemma PollNext(ws: seq<ProviderID>, order: seq<nat>, outstanding: seq<nat>, toRemove: seq<nat>, lo: nat,
                   height: nat)
      requires Polling(ws, order, outstanding, toRemove, lo, height) && outstanding != []
      ensures var next := arrivals(lo + |order|) % |outstanding|;
        var index := outstanding[next];
        var more := order + [index];
        && index < |ws| && Polled(ws, more, lo, height)
        && Reply(ws, more, lo, height, |order|) == Answer(ws[index], lo + |order|, height)
        && Bad(ws, more, lo, height, |order|) == toRemove && Distinct(toRemove + [index])
        && (forall j :: j in toRemove + [index] ==> j < |ws|)
    {
      hide Answer, ArrivalOrder, DropAt, Reply, Distinct;
      var next := arrivals(lo + |order|) % |outstanding|;
      var index := outstanding[next];
      PollOrder(ws, order, outstanding, toRemove, lo, height);
      PolledMore(ws, order, lo, height, index);
      BadStays(ws, order, lo, height, |order|, index);
      BadDistinct(ws, order, lo, height, |order|);
      BadAnswered(ws, order, lo, height, |order|);
      DistinctAppend(toRemove, index);
    }

    lemma BadAnswered(ws: seq<ProviderID>, order: seq<nat>, lo: nat, height: nat, n: nat)
      requires n <= |order| && forall i :: 0 <= i < |order| ==> order[i] < |ws|
      ensures forall j :: j in Bad(ws, order, lo, height, n) ==> j in order && j < |ws|
    {
    }

    lemma PollGoesOn(ws: seq<ProviderID>, order: seq<nat>, outstanding: seq<nat>, toRemove: seq<nat>, lo: nat,
                     height: nat)
      requires Polling(ws, order, outstanding, toRemove, lo, height) && outstanding != []
      requires var index := outstanding[arrivals(lo + |order|) % |outstanding|];
        index < |ws| && !Answer(ws[index], lo + |order|, height).Found?
      ensures var next := arrivals(lo + |order|) % |outstanding|;
        var index := outstanding[next];
        Polling(ws, order + [index], DropAt(outstanding, next),
                if Answer(ws[index], lo + |order|, height) == Malevolent then toRemove + [index] else toRemove,
                lo, height)
    {
      hide Answer, ArrivalOrder, DropAt, Reply;
      var index := outstanding[arrivals(lo + |order|) % |outstanding|];
      PollOrder(ws, order, outstanding, toRemove, lo, height);
      PolledMore(ws, order, lo, height, index);
      BadStays(ws, order, lo, height, |order|, index);
    }

    /** A witness that answered with a block is promoted, and one that answered so or misbehaved leaves the list. */
    ghost predicate Leaves(ws: seq<ProviderID>, order: seq<nat>, lo: nat, height: nat, j: nat)
      requires Polled(ws, order, lo, height)
    {
      exists i :: 0 <= i < |order| && order[i] == j &&
        (Reply(ws, order, lo, height, i) == Malevolent || Reply(ws, order, lo, height, i).Found?)
    }

    /** When a witness has responded: who leaves, and when none would be left. */
    lemma PollFound(ws: seq<ProviderID>, order: seq<nat>, lo: nat, height: nat, toRemove: seq<nat>)
      requires Polled(ws, order, lo, height) && Responded(ws, order, lo, height)
      requires toRemove == Bad(ws, order, lo, height, |order| - 1)
      ensures forall j :: Leaves(ws, order, lo, height, j) <==> j in toRemove + [order[|order| - 1]]
      ensures |toRemove| < |ws| && order[|order| - 1] < |ws|
      ensures OthersMisbehaved(ws, order, lo, height, |order| - 1) <==> |toRemove| + 1 == |ws|
    {
      BadIsAll(ws, order, lo, height, |order| - 1);
    }

    /** When all the witnesses have answered without a block. */
    lemma PollDone(ws: seq<ProviderID>, order: seq<nat>, toRemove: seq<nat>, lo: nat, height: nat)
      requires Polling(ws, order, [], toRemove, lo, height)
      ensures Polled(ws, order, lo, height) && |order| == |ws| && !Responded(ws, order, lo, height)
      ensures forall j :: Leaves(ws, order, lo, height, j) <==> j in toRemove
      ensures Distinct(toRemove) && forall j :: j in toRemove ==> j < |ws|
      ensures |toRemove| <= |ws| && (OthersMisbehaved(ws, order, lo, height, |order|) <==> |toRemove| == |ws|)
    {
      BadIsAll(ws, order, lo, height, |order|);
      BadDistinct(ws, order, lo, height, |order|);
      BadAnswered(ws, order, lo, height, |order|);
    }

    /**
      Promotes the first witness to respond with a block; the old primary is dropped or becomes
      the last witness. Exactly the witnesses that misbehaved before, and the new primary, leave
      the list. If that would leave no witness the call fails, with the new primary in place.
    */
    method FindNewPrimary(height: nat, remove: bool)
      returns (r: Option<LightBlock>, ghost order: seq<nat>, ghost kept: seq<nat>)
      modifies this
      ensures Polled(old(witnesses), order, |old(requests)|, height)
      ensures requests == old(requests) + Polls(old(witnesses), order, height)
      ensures Responded(old(witnesses), order, |old(requests)|, height) || |order| == |old(witnesses)|
      ensures primary == if Responded(old(witnesses), order, |old(requests)|, height)
        then old(witnesses)[order[|order| - 1]] else old(primary)
      ensures r.Some? <==>
        && Responded(old(witnesses), order, |old(requests)|, height)
        && !(remove && OthersMisbehaved(old(witnesses), order, |old(requests)|, height, |order| - 1))
      ensures r.Some? ==>
        && Reply(old(witnesses), order, |old(requests)|, height, |order| - 1) == Found(r.value)
        && r.value.header.height == height && Gave(primary, r.value, |old(requests)|, requests)
      ensures var listed := if r.Some? && !remove then old(witnesses) + [old(primary)] else old(witnesses);
        if r.Some? || (!Responded(old(witnesses), order, |old(requests)|, height) &&
                       !OthersMisbehaved(old(witnesses), order, |old(requests)|, height, |order|))
        then
          && Keeps(listed, witnesses, kept)
          && forall j: nat :: j < |listed| ==>
               (j in kept <==> !Leaves(old(witnesses), order, |old(requests)|, height, j))
        else witnesses == old(witnesses)
      ensures |witnesses| <= |old(witnesses)| && (remove && r.Some? ==> |witnesses| < |old(witnesses)|)
      ensures remove ==> forall w :: w in witnesses ==> w in old(witnesses)
      ensures Providers() <= old(Providers())
    {
      hide Distinct, Keeps, Polled, Polling, OthersMisbehaved, Leaves, Bad, DropAt, ArrivalOrder, Gave, Polls;
      hide Reply, Answer;
      ghost var before, oldPrimary, lo := witnesses, primary, |requests|;
      order, kept := [], [];
      PollStarts(before, lo, height);
      if witnesses == [] {
        assert seq(|before|, k => k) == [];
        PollDone(before, [], [], lo, height);
        return None, order, kept;
      }
      var outstanding: seq<nat> := seq(|witnesses|, k => k);
      var toRemove: seq<nat> := [];
      while outstanding != []
        invariant witnesses == before && primary == oldPrimary && forall i :: 0 <= i < |order| ==> order[i] < |before|
        invariant requests == old(requests) + Polls(before, order, height)
        invariant Polling(before, order, outstanding, toRemove, lo, height)
        decreases |outstanding|
      {
        var next := arrivals(|requests|) % |outstanding|;
        var index := outstanding[next];
        PollNext(before, order, outstanding, toRemove, lo, height);
        PollsNext(before, order, index, height);
        var response := Request(witnesses[index], height);
        if response.Found? {
          order := order + [index];
          PollFound(before, order, lo, height, toRemove);
          if !remove {
            witnesses := witnesses + [primary];
          }
          primary := witnesses[index];
          ghost var listed := witnesses;
          var ok;
          ok, kept := RemoveWitnesses(toRemove + [index]);
          if !ok {
            return None, order, kept;
          }
          KeptFrom(listed, witnesses, kept);
          GaveAt(primary, |requests| - 1, response.block, lo, requests);
          return Some(response.block), order, kept;
        }
        PollGoesOn(before, order, outstanding, toRemove, lo, height);
        if response == Malevolent {
          toRemove := toRemove + [index];
        }
        order := order + [index];
        outstanding := DropAt(outstanding, next);
      }
      PollDone(before, order, toRemove, lo, height);
      var ok;
      ok, kept := RemoveWitnesses(toRemove);
      if ok {
        KeptFrom(before, witnesses, kept);
      }
      return None, order, kept;
    }

    /** Asking the witnesses came to nothing: none gave the block, or none would be left beside the one that did. */
    ghost predicate NoneTakesOver(ws: seq<ProviderID>, order: seq<nat>, lo: nat, height: nat, remove: bool) {
      && Polled(ws, order, lo, height)
      && if Responded(ws, order, lo, height) then remove && OthersMisbehaved(ws, order, lo, height, |order| - 1)
         else |order| == |ws|
    }

    /** The k-th request went to a primary that did not give the block; those to its witnesses after it did not help. */
    ghost predicate UnobtainedAt(ps: set<ProviderID>, p: ProviderID, ws: seq<ProviderID>, order: seq<nat>, k: nat,
                                 height: nat, sent: seq<Sent>) {
      && p in ps && (forall w :: w in ws ==> w in ps) && !Answer(p, k, height).Found?
      && NoneTakesOver(ws, order, k + 1, height, Answer(p, k, height) == Malevolent)
      && k + 1 + |order| <= |sent|
      && sent[k..k + 1 + |order|] == [Sent(p, height)] + Polls(ws, order, height)
    }

    /** A block that was asked for and that no provider could be found for. */
    ghost predicate Unobtained(ps: set<ProviderID>, height: nat, lo: nat, sent: seq<Sent>) {
      exists p, ws, order, k :: lo <= k && UnobtainedAt(ps, p, ws, order, k, height, sent)
    }

    lemma UnobtainedSince(ps: set<ProviderID>, qs: set<ProviderID>, height: nat, lo: nat, sent: seq<Sent>, lo': nat,
                          sent': seq<Sent>)
      requires Unobtained(ps, height, lo, sent) && ps <= qs && lo' <= lo && sent <= sent'
      ensures Unobtained(qs, height, lo', sent')
    {
      hide NoneTakesOver, Answer, Polls;
      var p, ws, order, k :| lo <= k && UnobtainedAt(ps, p, ws, order, k, height, sent);
      assert sent'[k..k + 1 + |order|] == sent[k..k + 1 + |order|] by { assert |order| >= 0; }
      assert UnobtainedAt(qs, p, ws, order, k, height, sent');
    }

    /**
      Requests from the k-th on asked the witnesses, of which some are left, to take over a verification, but none gave
      the target's block, or none would be left beside the one that did, or it gave another block.
    */
    ghost predicate NotReplacedAt(ps: set<ProviderID>, left: seq<ProviderID>, ws: seq<ProviderID>, order: seq<nat>,
                                  k: nat, target: Header, sent: seq<Sent>) {
      && (forall w :: w in ws ==> w in ps) && (forall w :: w in left ==> w in ws) && Polled(ws, order, k, target.height)
      && k + |order| <= |sent| && sent[k..k + |order|] == Polls(ws, order, target.height)
      && if Responded(ws, order, k, target.height)
         then
           || OthersMisbehaved(ws, order, k, target.height, |order| - 1)
           || env.hash(Reply(ws, order, k, target.height, |order| - 1).block.header) != env.hash(target)
         else |order| == |ws|
    }

    ghost predicate NotReplaced(ps: set<ProviderID>, left: seq<ProviderID>, target: Header, lo: nat, sent: seq<Sent>) {
      exists ws, order, k :: lo <= k && NotReplacedAt(ps, left, ws, order, k, target, sent)
    }

    lemma NotReplacedNow(ps: set<ProviderID>, left: seq<ProviderID>, ws: seq<ProviderID>, order: seq<nat>,
                         before: seq<Sent>, target: Header, r: Option<LightBlock>, lo: nat)
      requires lo <= |before| && (forall w :: w in left ==> w in ws)
      requires (forall w :: w in ws ==> w in ps) && Polled(ws, order, |before|, target.height)
      requires Responded(ws, order, |before|, target.height) || |order| == |ws|
      requires r.Some? <==>
        && Responded(ws, order, |before|, target.height)
        && !OthersMisbehaved(ws, order, |before|, target.height, |order| - 1)
      requires r.Some? ==>
        && Reply(ws, order, |before|, target.height, |order| - 1) == Found(r.value)
        && env.hash(r.value.header) != env.hash(target)
      ensures NotReplaced(ps, left, target, lo, before + Polls(ws, order, target.height))
    {
      hide Answer, Polls, OthersMisbehaved, Reply, ArrivalOrder, Distinct;
      var sent := before + Polls(ws, order, target.height);
      assert sent[|before|..|before| + |order|] == Polls(ws, order, target.height);
      assert NotReplacedAt(ps, left, ws, order, |before|, target, sent);
    }

    lemma NotReplacedSince(ps: set<ProviderID>, qs: set<ProviderID>, left: seq<ProviderID>, target: Header,
                           target': Header, lo: nat, sent: seq<Sent>, lo': nat, sent': seq<Sent>)
      requires NotReplaced(ps, left, target, lo, sent) && ps <= qs && lo' <= lo && sent <= sent'
      requires target.height == target'.height && env.hash(target) == env.hash(target')
      ensures NotReplaced(qs, left, target', lo', sent')
    {
      hide Answer, Polls, OthersMisbehaved, Reply, ArrivalOrder, Distinct;
      var ws, order, k :| lo <= k && NotReplacedAt(ps, left, ws, order, k, target, sent);
      assert sent'[k..k + |order|] == sent[k..k + |order|] by { assert |order| >= 0; }
      assert NotReplacedAt(qs, left, ws, order, k, target', sent');
    }

    /**
      A block from the primary, or from a witness that takes its place; none exactly if the primary does not give it
      and no witness takes over.
    */
    method LightBlockFromPrimary(height: nat) returns (r: Option<LightBlock>, ghost order: seq<nat>)
      modifies this
      ensures old(requests) + [Sent(old(primary), height)] <= requests
      ensures |witnesses| <= |old(witnesses)| && Providers() <= old(Providers())
      ensures r.Some? ==> r.value.header.height == height && Gave(primary, r.value, |old(requests)|, requests)
      ensures r == None <==>
        && !Answer(old(primary), |old(requests)|, height).Found?
        && NoneTakesOver(old(witnesses), order, |old(requests)| + 1, height,
                         Answer(old(primary), |old(requests)|, height) == Malevolent)
      ensures r == None ==> Unobtained(old(Providers()), height, |old(requests)|, requests)
      ensures Answer(old(primary), |old(requests)|, height).Found? ==>
        && r == Some(Answer(old(primary), |old(requests)|, height).block) && primary == old(primary)
        && witnesses == old(witnesses)
    {
      hide Keeps, Leaves, OthersMisbehaved, ArrivalOrder, Distinct, Polls, Unobtained, Reply;
      ghost var p, ws, k, before := primary, witnesses, |requests|, requests;
      order := [];
      var response := Request(primary, height);
      if response.Found? {
        r := Some(response.block);
        GaveAt(primary, |requests| - 1, response.block, |old(requests)|, requests);
      } else {
        ghost var kept;
        r, order, kept := FindNewPrimary(height, response == Malevolent);
        if r.Some? {
          GaveSince(primary, r.value, |old(requests)| + 1, requests, |old(requests)|, requests);
        } else {
          UnobtainedNow(old(Providers()), p, ws, order, before, height);
        }
      }
    }

    lemma UnobtainedNow(ps: set<ProviderID>, p: ProviderID, ws: seq<ProviderID>, order: seq<nat>, before: seq<Sent>,
                        height: nat)
      requires p in ps && (forall w :: w in ws ==> w in ps) && !Answer(p, |before|, height).Found?
      requires NoneTakesOver(ws, order, |before| + 1, height, Answer(p, |before|, height) == Malevolent)
      ensures Unobtained(ps, height, |before|, before + [Sent(p, height)] + Polls(ws, order, height))
    {
      hide Answer, Polls, OthersMisbehaved, Responded;
      var polls := Polls(ws, order, height);
      var k, sent := |before|, before + [Sent(p, height)] + polls;
      assert sent[k..k + 1 + |order|] == [Sent(p, height)] + polls;
      assert UnobtainedAt(ps, p, ws, order, k, height, sent);
    }

    lemma GaveSince(p: ProviderID, b: LightBlock, lo: nat, sent: seq<Sent>, lo': nat, sent': seq<Sent>)
      requires Gave(p, b, lo, sent) && lo' <= lo && sent <= sent'
      ensures Gave(p, b, lo', sent')
    {
    }

    lemma GaveAt(p: ProviderID, k: nat, b: LightBlock, lo: nat, sent: seq<Sent>)
      requires lo <= k < |sent| && sent[k] == Sent(p, b.header.height) && Answer(p, k, b.header.height) == Found(b)
      ensures Gave(p, b, lo, sent)
    {
    }

    lemma WithheldAt(p: ProviderID, k: nat, height: nat, lo: nat, sent: seq<Sent>)
      requires lo <= k < |sent| && sent[k] == Sent(p, height) && !Answer(p, k, height).Found?
      ensures Withheld(p, height, lo, sent)
    {
    }

    //-------------------------------------------------------------------------
    // Backwards

    ghost predicate GivenHeader(ps: set<ProviderID>, h: Header, lo: nat, sent: seq<Sent>) {
      exists b: LightBlock :: b.header == h && SomeGave(ps, b, lo, sent)
    }

    /** A path of hashes along headers that the providers gave, after the first. */
    ghost predicate GivenPath(ps: set<ProviderID>, lo: nat, sent: seq<Sent>, path: seq<Header>) {
      HashPath(env, path) && forall i :: 0 < i < |path| ==> GivenHeader(ps, path[i], lo, sent)
    }

    /** One of the providers gave a block that the last header of such a path does not point back at. */
    ghost predicate BrokenLink(ps: set<ProviderID>, lo: nat, sent: seq<Sent>, path: seq<Header>, b: LightBlock) {
      && GivenPath(ps, lo, sent, path) && b.header.height + 1 == path[|path| - 1].height
      && !PointedAt(env, b.header, path[|path| - 1])
      && SomeGave(ps, b, lo, sent)
    }

    /** Such a path ends at the target's height, or at once if it starts no higher, with another hash. */
    ghost predicate EndsElsewhere(ps: set<ProviderID>, lo: nat, sent: seq<Sent>, path: seq<Header>, target: Header) {
      && GivenPath(ps, lo, sent, path) && EndsAt(path, target)
      && env.hash(path[|path| - 1]) != env.hash(target)
    }

    ghost predicate EndsAt(path: seq<Header>, target: Header)
      requires path != []
    {
      if |path| == 1 then path[0].height <= target.height else path[|path| - 1].height == target.height
    }

    /** A block between two heights was asked for and not obtained. */
    ghost predicate UnobtainedBetween(ps: set<ProviderID>, lo: nat, sent: seq<Sent>, low: nat, high: nat) {
      exists h :: low <= h < high && Unobtained(ps, h, lo, sent)
    }

    /**
      Why going backwards failed: a block on the way not obtained, a broken link from a primary that no witness could
      replace, or a path that leads elsewhere.
    */
    ghost predicate StoppedBackwards(ps: set<ProviderID>, left: seq<ProviderID>, lo: nat, sent: seq<Sent>,
                                     trusted: Header, target: Header) {
      || UnobtainedBetween(ps, lo, sent, target.height, trusted.height)
      || (&& NotReplaced(ps, left, target, lo, sent)
          && exists path, b ::
               BrokenLink(ps, lo, sent, path, b) && path[0] == trusted && target.height <= b.header.height)
      || (exists path :: EndsElsewhere(ps, lo, sent, path, target) && path[0] == trusted)
    }

    /** If the target can be reached then only a block that was not obtained, or broke a link, can be the cause. */
    lemma NotStoppedBackwards(ps: set<ProviderID>, left: seq<ProviderID>, lo: nat, sent: seq<Sent>, trusted: Header,
                              target: Header)
      requires Collisionless(env) && ReachedBackwards(env, trusted, target)
      requires !UnobtainedBetween(ps, lo, sent, target.height, trusted.height)
      requires forall path, b ::
        BrokenLink(ps, lo, sent, path, b) && path[0] == trusted ==> b.header.height < target.height
      ensures !StoppedBackwards(ps, left, lo, sent, trusted, target)
    {
      hide VerifyBackwards, UnobtainedBetween, BrokenLink, GivenHeader;
      var s: seq<Header> :| HashPath(env, s) && s[0] == trusted && s[|s| - 1].height <= target.height &&
        env.hash(s[|s| - 1]) == env.hash(target);
      assert s[|s| - 1] == target;
      HashPathHeights(env, s, |s| - 1);
      forall path | GivenPath(ps, lo, sent, path) && EndsAt(path, target) && path[0] == trusted
        ensures env.hash(path[|path| - 1]) == env.hash(target)
      {
        HashPathHeights(env, path, |path| - 1);
        HashPathsAgree(env, s, path, |path| - 1);
      }
    }

    lemma UnobtainedWidens(ps: set<ProviderID>, qs: set<ProviderID>, lo: nat, sent: seq<Sent>, lo': nat,
                           sent': seq<Sent>, low: nat, high: nat, high': nat)
      requires UnobtainedBetween(ps, lo, sent, low, high) && ps <= qs && lo' <= lo && sent <= sent' && high <= high'
      ensures UnobtainedBetween(qs, lo', sent', low, high')
    {
      hide Unobtained;
      var h :| low <= h < high && Unobtained(ps, h, lo, sent);
      UnobtainedSince(ps, qs, h, lo, sent, lo', sent');
    }

    lemma PathWidens(ps: set<ProviderID>, qs: set<ProviderID>, lo: nat, sent: seq<Sent>, lo': nat, sent': seq<Sent>,
                     path: seq<Header>)
      requires GivenPath(ps, lo, sent, path) && ps <= qs && lo' <= lo && sent <= sent'
      ensures GivenPath(qs, lo', sent', path)
    {
      hide HashPath, SomeGave;
      forall i | 0 < i < |path| ensures GivenHeader(qs, path[i], lo', sent') {
        var b: LightBlock :| b.header == path[i] && SomeGave(ps, b, lo, sent);
        GaveWidens(ps, qs, b, lo, sent, lo', sent');
      }
    }

    lemma PathJoins(ps: set<ProviderID>, lo: nat, sent: seq<Sent>, path: seq<Header>, rest: seq<Header>)
      requires GivenPath(ps, lo, sent, path) && GivenPath(ps, lo, sent, rest) && rest[0] == path[|path| - 1]
      ensures GivenPath(ps, lo, sent, path + rest[1..]) && (path + rest[1..])[0] == path[0]
      ensures (path + rest[1..])[|path + rest[1..]| - 1] == rest[|rest| - 1]
    {
      hide GivenHeader, VerifyBackwards;
      HashPathJoins(env, path, rest);
      var whole := path + rest[1..];
      forall i | 0 < i < |whole| ensures GivenHeader(ps, whole[i], lo, sent) {
        assert i >= |path| ==> whole[i] == rest[i - |path| + 1];
      }
    }

    /** A cause found by a walk that continues a path above the target is one for the whole walk. */
    lemma StoppedLater(ps: set<ProviderID>, qs: set<ProviderID>, left: seq<ProviderID>, lo: nat, lo': nat,
                       before: seq<Sent>, sent: seq<Sent>, path: seq<Header>, target: Header, target': Header)
      requires GivenPath(qs, lo', before, path) && StoppedBackwards(ps, left, lo, sent, path[|path| - 1], target)
      requires ps <= qs && lo' <= lo && before <= sent && target.height < path[|path| - 1].height
      requires target.height == target'.height && env.hash(target) == env.hash(target')
      ensures StoppedBackwards(qs, left, lo', sent, path[0], target')
    {
      hide Unobtained, SomeGave, VerifyBackwards, GivenHeader, UnobtainedBetween, NotReplaced;
      GivenIsPath(qs, lo', before, path);
      HashPathHeights(env, path, |path| - 1);
      PathWidens(qs, qs, lo', before, lo', sent, path);
      if UnobtainedBetween(ps, lo, sent, target.height, path[|path| - 1].height) {
        UnobtainedWidens(ps, qs, lo, sent, lo', sent, target.height, path[|path| - 1].height, path[0].height);
      } else if NotReplaced(ps, left, target, lo, sent) && (exists rest, b ::
        BrokenLink(ps, lo, sent, rest, b) && rest[0] == path[|path| - 1] && target.height <= b.header.height) {
        var rest, b :|
          BrokenLink(ps, lo, sent, rest, b) && rest[0] == path[|path| - 1] && target.height <= b.header.height;
        PathWidens(ps, qs, lo, sent, lo', sent, rest);
        PathJoins(qs, lo', sent, path, rest);
        GaveWidens(ps, qs, b, lo, sent, lo', sent);
        assert BrokenLink(qs, lo', sent, path + rest[1..], b);
        NotReplacedSince(ps, qs, left, target, target', lo, sent, lo', sent);
      } else {
        var rest :| EndsElsewhere(ps, lo, sent, rest, target) && rest[0] == path[|path| - 1];
        PathWidens(ps, qs, lo, sent, lo', sent, rest);
        PathJoins(qs, lo', sent, path, rest);
        assert EndsElsewhere(qs, lo', sent, path + rest[1..], target');
      }
    }

    lemma GivenIsPath(ps: set<ProviderID>, lo: nat, sent: seq<Sent>, path: seq<Header>)
      requires GivenPath(ps, lo, sent, path)
      ensures path != [] && HashPath(env, path)
    {
    }

    /**
      Follows the hashes back from a trusted header. A primary that breaks the chain is
      replaced and the walk goes on; success binds the target to the chain of hashes.
    */
    method Backwards(trusted: Header, target: Header) returns (ok: bool)
      modifies this
      ensures ok ==> ReachedBackwards(env, trusted, target)
      ensures !ok ==> StoppedBackwards(old(Providers()), witnesses, |old(requests)|, requests, trusted, target)
      ensures old(requests) <= requests && |witnesses| <= |old(witnesses)| && Providers() <= old(Providers())
      decreases |witnesses|
    {
      hide Gave, Unobtained, VerifyBackwards, HashPath, StoppedBackwards, Keeps, Leaves, Polled, OthersMisbehaved;
      hide Answer, GivenPath, NoneTakesOver, NotReplaced;
      ghost var ps, lo := Providers(), |requests|;
      var verified := trusted;
      ghost var path := [trusted];
      PathStarts(ps, lo, requests, trusted);
      while verified.height > target.height
        invariant path != [] && GivenPath(ps, lo, requests, path) && path[0] == trusted
        invariant path[|path| - 1] == verified && (|path| > 1 ==> target.height <= verified.height)
        invariant old(requests) <= requests && |witnesses| <= |old(witnesses)| && Providers() <= ps
        invariant verified.height <= trusted.height
        decreases verified.height
      {
        ghost var qs, before := Providers(), requests;
        var interim, _ := LightBlockFromPrimary(verified.height - 1);
        PathWidens(ps, ps, lo, before, lo, requests, path);
        if interim == None {
          StoppedUnobtained(qs, ps, witnesses, |before|, lo, requests, trusted, target, verified.height - 1);
          return false;
        }
        GaveOne(ps, primary, interim.value, |before|, requests, lo, requests);
        if !VerifyBackwards(env, interim.value.header, verified) {
          ghost var sent := requests;
          ghost var ws := witnesses;
          var replacement, order, _ := FindNewPrimary(target.height, true);
          PathWidens(ps, ps, lo, sent, lo, requests, path);
          if replacement == None || env.hash(replacement.value.header) != env.hash(target) {
            NotReplacedNow(ps, witnesses, ws, order, sent, target, replacement, lo);
            StoppedBroken(ps, witnesses, lo, sent, requests, trusted, target, path, interim.value);
          }
          if replacement == None {
            return false;
          }
          if env.hash(replacement.value.header) != env.hash(target) {
            return false;
          }
          ghost var rs, from := Providers(), requests;
          ok := Backwards(verified, replacement.value.header);
          if ok {
            GivenIsPath(ps, lo, from, path);
            ReachedLater(path, replacement.value.header, target);
          } else {
            StoppedLater(rs, ps, witnesses, |from|, lo, from, requests, path, replacement.value.header, target);
          }
          return;
        }
        PathGrows(ps, lo, requests, path, interim.value);
        path := path + [interim.value.header];
        verified := interim.value.header;
      }
      ok := env.hash(verified) == env.hash(target);
      PathEnds(ps, witnesses, lo, requests, path, target);
    }

    lemma PathStarts(ps: set<ProviderID>, lo: nat, sent: seq<Sent>, trusted: Header)
      ensures GivenPath(ps, lo, sent, [trusted])
    {
    }

    lemma PathGrows(ps: set<ProviderID>, lo: nat, sent: seq<Sent>, path: seq<Header>, b: LightBlock)
      requires path != [] && GivenPath(ps, lo, sent, path) && SomeGave(ps, b, lo, sent)
      requires VerifyBackwards(env, b.header, path[|path| - 1]) && b.header.height + 1 == path[|path| - 1].height
      ensures GivenPath(ps, lo, sent, path + [b.header])
    {
      hide SomeGave, VerifyBackwards, HashPath;
      HashPathExtends(env, path, b.header);
      assert GivenHeader(ps, b.header, lo, sent);
    }

    lemma PathEnds(ps: set<ProviderID>, left: seq<ProviderID>, lo: nat, sent: seq<Sent>, path: seq<Header>,
                   target: Header)
      requires path != [] && GivenPath(ps, lo, sent, path) && EndsAt(path, target)
      ensures if env.hash(path[|path| - 1]) == env.hash(target) then ReachedBackwards(env, path[0], target)
              else StoppedBackwards(ps, left, lo, sent, path[0], target)
    {
      assert env.hash(path[|path| - 1]) != env.hash(target) ==> EndsElsewhere(ps, lo, sent, path, target);
    }

    lemma ReachedLater(path: seq<Header>, target: Header, target': Header)
      requires path != [] && HashPath(env, path) && ReachedBackwards(env, path[|path| - 1], target)
      requires target.height == target'.height && env.hash(target) == env.hash(target')
      ensures ReachedBackwards(env, path[0], target')
    {
      var rest: seq<Header> :| HashPath(env, rest) && rest[0] == path[|path| - 1] &&
        rest[|rest| - 1].height <= target.height && env.hash(rest[|rest| - 1]) == env.hash(target);
      HashPathJoins(env, path, rest);
      assert (path + rest[1..])[|path + rest[1..]| - 1] == rest[|rest| - 1];
    }

    lemma StoppedUnobtained(ps: set<ProviderID>, qs: set<ProviderID>, left: seq<ProviderID>, lo: nat, lo': nat,
                            sent: seq<Sent>, trusted: Header, target: Header, h: nat)
      requires Unobtained(ps, h, lo, sent) && ps <= qs && lo' <= lo && target.height <= h < trusted.height
      ensures StoppedBackwards(qs, left, lo', sent, trusted, target)
    {
      hide Unobtained;
      UnobtainedSince(ps, qs, h, lo, sent, lo', sent);
    }

    lemma StoppedBroken(ps: set<ProviderID>, left: seq<ProviderID>, lo: nat, sent: seq<Sent>, sent': seq<Sent>,
                        trusted: Header, target: Header, path: seq<Header>, b: LightBlock)
      requires path != [] && GivenPath(ps, lo, sent, path) && path[0] == trusted
      requires SomeGave(ps, b, lo, sent) && sent <= sent'
      requires b.header.height + 1 == path[|path| - 1].height && target.height <= b.header.height
      requires !VerifyBackwards(env, b.header, path[|path| - 1]) && NotReplaced(ps, left, target, lo, sent')
      ensures StoppedBackwards(ps, left, lo, sent', trusted, target)
    {
      hide SomeGave, GivenPath, NotReplaced;
      GaveWidens(ps, ps, b, lo, sent, lo, sent');
      PathWidens(ps, ps, lo, sent, lo, sent', path);
      assert BrokenLink(ps, lo, sent', path, b);
    }

    lemma GaveOne(ps: set<ProviderID>, p: ProviderID, b: LightBlock, lo: nat, sent: seq<Sent>, lo': nat,
                  sent': seq<Sent>)
      requires p in ps && Gave(p, b, lo, sent) && lo' <= lo && sent <= sent'
      ensures SomeGave(ps, b, lo', sent')
    {
      GaveWidens({p}, ps, b, lo, sent, lo', sent');
    }

    //-------------------------------------------------------------------------
    // Sequential and skipping verification

    /** A trace of blocks that the providers gave, after the first. */
    ghost predicate GivenTrace(ps: set<ProviderID>, lo: nat, sent: seq<Sent>, trace: seq<LightBlock>, now: int) {
      IsTrace(env, cfg, now, trace) && forall i :: 0 < i < |trace| ==> SomeGave(ps, trace[i], lo, sent)
    }

    /** The target, or a block that one of the providers gave, does not verify next in such a trace. */
    ghost predicate Rejected(ps: set<ProviderID>, lo: nat, sent: seq<Sent>, trace: seq<LightBlock>, b: LightBlock,
                             target: LightBlock, now: int)
    {
      && GivenTrace(ps, lo, sent, trace, now) && b.header.height == Last(trace).header.height + 1
      && VerifyAdjacent(env, cfg, Last(trace).header, b, now) != Ok
      && (b == target || (b.header.height < target.header.height && SomeGave(ps, b, lo, sent)))
    }

    /**
      Why sequential verification failed: nothing to do, a block not obtained, or one that does not verify; if that is
      an invalid header below the target then no witness could replace the primary.
    */
    ghost predicate StoppedForwards(ps: set<ProviderID>, left: seq<ProviderID>, lo: nat, sent: seq<Sent>,
                                    trusted: LightBlock, target: LightBlock, now: int) {
      || target.header.height <= trusted.header.height
      || UnobtainedBetween(ps, lo, sent, trusted.header.height + 1, target.header.height)
      || (exists trace, b ::
            && Rejected(ps, lo, sent, trace, b, target, now) && trace[0] == trusted
            && (StaysInvalid(trace, b, target, now) ==> NotReplaced(ps, left, target.header, lo, sent)))
    }

    /** An invalid header below the target, for which the primary is to be replaced. */
    ghost predicate StaysInvalid(trace: seq<LightBlock>, b: LightBlock, target: LightBlock, now: int)
      requires trace != []
    {
      && VerifyAdjacent(env, cfg, Last(trace).header, b, now) == InvalidHeader
      && b.header.height != target.header.height
    }

    lemma GivenWidens(ps: set<ProviderID>, lo: nat, sent: seq<Sent>, sent': seq<Sent>, trace: seq<LightBlock>, now: int)
      requires GivenTrace(ps, lo, sent, trace, now) && sent <= sent'
      ensures GivenTrace(ps, lo, sent', trace, now)
    {
      hide IsTrace, SomeGave;
      forall i | 0 < i < |trace| ensures SomeGave(ps, trace[i], lo, sent') {
        GaveWidens(ps, ps, trace[i], lo, sent, lo, sent');
      }
    }

    lemma GivenGrows(ps: set<ProviderID>, lo: nat, sent: seq<Sent>, trace: seq<LightBlock>, b: LightBlock, now: int)
      requires trace != [] && GivenTrace(ps, lo, sent, trace, now) && SomeGave(ps, b, lo, sent)
      requires VerifyAdjacent(env, cfg, Last(trace).header, b, now) == Ok
      ensures GivenTrace(ps, lo, sent, trace + [b], now)
    {
      hide IsTrace, SomeGave;
      TraceExtends(env, cfg, now, trace, b);
    }

    lemma GivenStarts(ps: set<ProviderID>, lo: nat, sent: seq<Sent>, trusted: LightBlock, now: int)
      ensures GivenTrace(ps, lo, sent, [trusted], now)
    {
    }

    lemma StoppedRejected(ps: set<ProviderID>, left: seq<ProviderID>, lo: nat, sent: seq<Sent>, sent': seq<Sent>,
                          trace: seq<LightBlock>, b: LightBlock, target: LightBlock, now: int)
      requires trace != [] && Rejected(ps, lo, sent, trace, b, target, now) && sent <= sent'
      requires StaysInvalid(trace, b, target, now) ==> NotReplaced(ps, left, target.header, lo, sent')
      ensures StoppedForwards(ps, left, lo, sent', trace[0], target, now)
    {
      hide VerifyAdjacent, GivenTrace, NotReplaced, StaysInvalid;
      GivenWidens(ps, lo, sent, sent', trace, now);
      if b != target {
        GaveWidens(ps, ps, b, lo, sent, lo, sent');
      }
      assert Rejected(ps, lo, sent', trace, b, target, now);
    }

    lemma ForwardsUnobtained(ps: set<ProviderID>, qs: set<ProviderID>, left: seq<ProviderID>, lo: nat, lo': nat,
                             sent: seq<Sent>, trusted: LightBlock, target: LightBlock, now: int, h: nat)
      requires Unobtained(ps, h, lo, sent) && ps <= qs && lo' <= lo
      requires trusted.header.height < h < target.header.height
      ensures StoppedForwards(qs, left, lo', sent, trusted, target, now)
    {
      hide Unobtained;
      UnobtainedSince(ps, qs, h, lo, sent, lo', sent);
    }

    /** Verifies every height in between; the trace is what is compared with the witnesses next. */
    method VerifySequential(trusted: LightBlock, target: LightBlock, now: int) returns (r: Option<seq<LightBlock>>)
      modifies this
      ensures r.Some? ==>
        && IsTrace(env, cfg, now, r.value) && r.value[0] == trusted && Last(r.value) == target
        && |r.value| == target.header.height - trusted.header.height + 1
      ensures r == None ==>
        StoppedForwards(old(Providers()), witnesses, |old(requests)|, requests, trusted, target, now)
    {
      hide VerifyAdjacent, IsTrace, Gave, SomeGave, GivenTrace, StoppedForwards, Keeps, Leaves, Polled;
      hide OthersMisbehaved, Answer, Unobtained, NoneTakesOver, NotReplaced;
      ghost var ps, lo := Providers(), |requests|;
      var verified := trusted;
      var trace := [trusted];
      var height := trusted.header.height + 1;
      GivenStarts(ps, lo, requests, trusted, now);
      while height <= target.header.height
        invariant trace != [] && IsTrace(env, cfg, now, trace) && trace[0] == trusted && Last(trace) == verified
        invariant old(requests) <= requests && Providers() <= ps
        invariant height == trusted.header.height + |trace| == verified.header.height + 1
        invariant |trace| > 1 ==> height <= target.header.height + 1
        invariant height <= target.header.height ==> GivenTrace(ps, lo, requests, trace, now)
        invariant height == target.header.height + 1 && |trace| > 1 ==> verified == target
        decreases |witnesses|, target.header.height + 1 - height
      {
        var interim := target;
        ghost var qs, earlier := Providers(), requests;
        if height != target.header.height {
          var fetched, _ := LightBlockFromPrimary(height);
          if fetched == None {
            ForwardsUnobtained(qs, ps, witnesses, |earlier|, lo, requests, trusted, target, now, height);
            return None;
          }
          interim := fetched.value;
          GaveOne(ps, primary, interim, |earlier|, requests, lo, requests);
        }
        GivenWidens(ps, lo, earlier, requests, trace, now);
        var outcome := VerifyAdjacent(env, cfg, verified.header, interim, now);
        if outcome != Ok && (outcome != InvalidHeader || interim.header.height == target.header.height) {
          StoppedRejected(ps, witnesses, lo, requests, requests, trace, interim, target, now);
        }
        if outcome == InvalidHeader {
          if interim.header.height == target.header.height {
            return None;
          }
          ghost var sent := requests;
          ghost var ws := witnesses;
          var replacement, order, _ := FindNewPrimary(target.header.height, true);
          if replacement == None || env.hash(replacement.value.header) != env.hash(target.header) {
            NotReplacedNow(ps, witnesses, ws, order, sent, target.header, replacement, lo);
            StoppedRejected(ps, witnesses, lo, sent, requests, trace, interim, target, now);
          }
          GivenWidens(ps, lo, sent, requests, trace, now);
          if replacement == None {
            return None;
          }
          if env.hash(replacement.value.header) != env.hash(target.header) {
            return None;
          }
          // try the same height again with the new primary
        } else if outcome != Ok {
          return None;
        } else {
          TraceExtends(env, cfg, now, trace, interim);
          if interim.header.height < target.header.height {
            GivenGrows(ps, lo, requests, trace, interim, now);
          }
          verified := interim;
          trace := trace + [verified];
          height := height + 1;
        }
      }
      if |trace| < 2 {
        NothingToDo(ps, witnesses, lo, requests, trusted, target, now);
        return None;
      }
      return Some(trace);
    }

    lemma NothingToDo(ps: set<ProviderID>, left: seq<ProviderID>, lo: nat, sent: seq<Sent>, trusted: LightBlock,
                      target: LightBlock, now: int)
      requires target.header.height <= trusted.header.height
      ensures StoppedForwards(ps, left, lo, sent, trusted, target, now)
    {
    }

    /** Requests to one provider. */
    function SentTo(source: ProviderID, heights: seq<nat>): (r: seq<Sent>)
      ensures |r| == |heights|
    {
      seq(|heights|, i requires 0 <= i < |heights| => Sent(source, heights[i]))
    }

    /** Skipping verification with the answers of one provider. */
    method SkipWith(source: ProviderID, trusted: LightBlock, target: LightBlock, now: int)
      returns (r: SkipResult, ghost reached: seq<LightBlock>, ghost asked: seq<nat>)
      modifies this`requests
      ensures requests == old(requests) + SentTo(source, asked) && reached != [] && reached[0] == trusted
      ensures Approach(env, cfg, now, Asked(source, |old(requests)|), asked, target, reached)
      ensures Explains(env, cfg, now, Asked(source, |old(requests)|), asked, target, reached, r)
      ensures r.Verified? ==>
        |r.trace| > 1 && IsTrace(env, cfg, now, r.trace) && r.trace[0] == trusted && Last(r.trace) == target
    {
      var heights: seq<nat>;
      r, heights, reached := VerifySkipping(env, cfg, Asked(source, |requests|), trusted, target, now);
      requests := requests + SentTo(source, heights);
      asked := heights;
    }

    /** Verification by requests to a provider, from the lo-th request on, did not get to the target. */
    ghost predicate CannotReach(source: ProviderID, lo: nat, sent: seq<Sent>, trusted: LightBlock, target: LightBlock,
                                now: int) {
      exists asked: seq<nat>, reached: seq<LightBlock>, result: SkipResult ::
        && lo + |asked| <= |sent| && sent[lo..lo + |asked|] == SentTo(source, asked)
        && reached != [] && reached[0] == trusted && !result.Verified?
        && Approach(env, cfg, now, Asked(source, lo), asked, target, reached)
        && Explains(env, cfg, now, Asked(source, lo), asked, target, reached, result)
    }

    /** An invalid header below the target, for which the primary is to be replaced. */
    ghost predicate Retries(result: SkipResult, target: LightBlock) {
      result.Failed? && result.reason == InvalidHeader && result.to != target.header.height
    }

    /** The last attempt was not one to try again, or no witness could replace its primary. */
    ghost predicate GaveUp(ps: set<ProviderID>, left: seq<ProviderID>, a: Attempt, sent: seq<Sent>, trusted: LightBlock,
                           now: int) {
      exists asked: seq<nat>, reached: seq<LightBlock>, result: SkipResult ::
        && reached != [] && reached[0] == trusted && !result.Verified?
        && Explains(env, cfg, now, Asked(a.primary, a.lo), asked, a.target, reached, result)
        && (Retries(result, a.target) ==> NotReplaced(ps, left, a.target.header, a.lo + |asked|, sent))
    }

    lemma GaveUpNow(ps: set<ProviderID>, left: seq<ProviderID>, a: Attempt, sent: seq<Sent>, trusted: LightBlock,
                    now: int, asked: seq<nat>, reached: seq<LightBlock>, result: SkipResult)
      requires reached != [] && reached[0] == trusted && !result.Verified?
      requires Explains(env, cfg, now, Asked(a.primary, a.lo), asked, a.target, reached, result)
      requires Retries(result, a.target) ==> NotReplaced(ps, left, a.target.header, a.lo + |asked|, sent)
      ensures GaveUp(ps, left, a, sent, trusted, now)
    {
      hide Explains, NotReplaced;
    }

    lemma GaveUpSince(ps: set<ProviderID>, qs: set<ProviderID>, left: seq<ProviderID>, a: Attempt, sent: seq<Sent>,
                      trusted: LightBlock, now: int)
      requires GaveUp(ps, left, a, sent, trusted, now) && ps <= qs
      ensures GaveUp(qs, left, a, sent, trusted, now)
    {
      hide Explains, NotReplaced;
      var asked: seq<nat>, reached: seq<LightBlock>, result: SkipResult :|
        && reached != [] && reached[0] == trusted && !result.Verified?
        && Explains(env, cfg, now, Asked(a.primary, a.lo), asked, a.target, reached, result)
        && (Retries(result, a.target) ==> NotReplaced(ps, left, a.target.header, a.lo + |asked|, sent));
      if Retries(result, a.target) {
        var h := a.target.header;
        NotReplacedSince(ps, qs, left, h, h, a.lo + |asked|, sent, a.lo + |asked|, sent);
      }
      GaveUpNow(qs, left, a, sent, trusted, now, asked, reached, result);
    }

    lemma ReachEnds(source: ProviderID, before: seq<Sent>, trusted: LightBlock, target: LightBlock, now: int,
                    asked: seq<nat>, reached: seq<LightBlock>, result: SkipResult)
      requires reached != [] && reached[0] == trusted && !result.Verified?
      requires Approach(env, cfg, now, Asked(source, |before|), asked, target, reached)
      requires Explains(env, cfg, now, Asked(source, |before|), asked, target, reached, result)
      ensures CannotReach(source, |before|, before + SentTo(source, asked), trusted, target, now)
    {
      hide Approach, Explains;
      var sent := before + SentTo(source, asked);
      assert sent[|before|..|before| + |asked|] == SentTo(source, asked);
    }

    lemma ReachWidens(source: ProviderID, lo: nat, sent: seq<Sent>, sent': seq<Sent>, trusted: LightBlock,
                      target: LightBlock, now: int)
      requires CannotReach(source, lo, sent, trusted, target, now) && sent <= sent'
      ensures CannotReach(source, lo, sent', trusted, target, now)
    {
      hide Approach, Explains;
      var asked: seq<nat>, reached: seq<LightBlock>, result: SkipResult :|
        && lo + |asked| <= |sent| && sent[lo..lo + |asked|] == SentTo(source, asked)
        && reached != [] && reached[0] == trusted && !result.Verified?
        && Approach(env, cfg, now, Asked(source, lo), asked, target, reached)
        && Explains(env, cfg, now, Asked(source, lo), asked, target, reached, result);
      assert sent'[lo..lo + |asked|] == sent[lo..lo + |asked|];
    }

    /** The same header by height and hash. */
    ghost predicate SameTarget(a: LightBlock, b: LightBlock) {
      a.header.height == b.header.height && env.hash(a.header) == env.hash(b.header)
    }

    /** The first attempt is with the primary there was; later ones, in turn, with those that gave the target again. */
    ghost predicate Attempts(ps: set<ProviderID>, tries: seq<Attempt>, lo: nat, sent: seq<Sent>, target: LightBlock) {
      && tries != [] && tries[0].lo == lo && tries[0].target == target
      && (forall i :: 0 <= i < |tries| ==> tries[i].primary in ps && SameTarget(tries[i].target, target))
      && (forall i, j :: 0 <= i < j < |tries| ==> tries[i].lo < tries[j].lo)
      && (forall i :: 0 < i < |tries| ==> Gave(tries[i].primary, tries[i].target, lo, sent))
    }

    /** None of the first n attempts got from the trusted block to the target. */
    ghost predicate AllFailed(tries: seq<Attempt>, n: nat, sent: seq<Sent>, trusted: LightBlock, now: int)
      requires n <= |tries|
    {
      forall i :: 0 <= i < n ==> CannotReach(tries[i].primary, tries[i].lo, sent, trusted, tries[i].target, now)
    }

    lemma OneAttempt(ps: set<ProviderID>, p: ProviderID, lo: nat, sent: seq<Sent>, target: LightBlock)
      requires p in ps
      ensures Attempts(ps, [Attempt(p, lo, target)], lo, sent, target)
    {
    }

    /** One attempt before others, which started from a block that this one's replacement gave. */
    lemma AttemptBefore(ps: set<ProviderID>, qs: set<ProviderID>, p: ProviderID, rest: seq<Attempt>, lo: nat, lo': nat,
                        sent: seq<Sent>, target: LightBlock, target': LightBlock)
      requires p in ps && qs <= ps && lo < lo' && Attempts(qs, rest, lo', sent, target') && SameTarget(target', target)
      requires Gave(rest[0].primary, target', lo, sent)
      ensures Attempts(ps, [Attempt(p, lo, target)] + rest, lo, sent, target)
    {
      var tries := [Attempt(p, lo, target)] + rest;
      forall i, j | 0 <= i < j < |tries| ensures tries[i].lo < tries[j].lo {
        assert tries[j] == rest[j - 1] && (i > 0 ==> tries[i] == rest[i - 1]);
        assert j > 1 ==> rest[0].lo < rest[j - 1].lo;
      }
      forall i | 0 < i < |tries| ensures Gave(tries[i].primary, tries[i].target, lo, sent) {
        assert tries[i] == rest[i - 1];
        if i > 1 {
          assert Gave(rest[i - 1].primary, rest[i - 1].target, lo', sent);
        }
      }
    }

    lemma FailedBefore(first: Attempt, rest: seq<Attempt>, n: nat, sent: seq<Sent>, trusted: LightBlock, now: int)
      requires n <= |rest| && AllFailed(rest, n, sent, trusted, now)
      requires CannotReach(first.primary, first.lo, sent, trusted, first.target, now)
      ensures AllFailed([first] + rest, n + 1, sent, trusted, now)
    {
      hide CannotReach;
      var tries := [first] + rest;
      forall i | 0 <= i < n + 1
        ensures CannotReach(tries[i].primary, tries[i].lo, sent, trusted, tries[i].target, now)
      {
        assert i > 0 ==> tries[i] == rest[i - 1];
      }
    }

    /**
      Skipping verification with the primary; an invalid header in between replaces the primary and starts again. With
      every primary but the last the target could not be reached, and not with the last either if the call fails.
    */
    method VerifySkippingAgainstPrimary(trusted: LightBlock, target: LightBlock, now: int)
      returns (r: Option<seq<LightBlock>>, ghost tries: seq<Attempt>)
      modifies this
      ensures old(requests) <= requests && |witnesses| <= |old(witnesses)|
      ensures Attempts(old(Providers()), tries, |old(requests)|, requests, target) && tries[0].primary == old(primary)
      ensures AllFailed(tries, if r.Some? then |tries| - 1 else |tries|, requests, trusted, now)
      ensures r == None ==> GaveUp(old(Providers()), witnesses, tries[|tries| - 1], requests, trusted, now)
      ensures r.Some? ==>
        && IsTrace(env, cfg, now, r.value) && r.value[0] == trusted && Last(r.value) == tries[|tries| - 1].target
        && env.hash(Last(r.value).header) == env.hash(target.header)
      decreases |witnesses|
    {
      hide Approach, Explains, IsTrace, Keeps, Leaves, Polled, OthersMisbehaved, Answer, CannotReach, Gave, AllFailed;
      hide GaveUp, NotReplaced;
      ghost var ps, first, before := Providers(), Attempt(primary, |requests|, target), requests;
      tries := [first];
      var result, reached, asked := SkipWith(primary, trusted, target, now);
      OneAttempt(ps, primary, |before|, requests, target);
      if result.Verified? {
        NoneFailed(tries, requests, trusted, now);
        return Some(result.trace), tries;
      }
      ReachEnds(primary, before, trusted, target, now, asked, reached, result);
      OneFailed(first, requests, trusted, now);
      if !result.Failed? || result.reason != InvalidHeader || result.to == target.header.height {
        GaveUpNow(ps, witnesses, first, requests, trusted, now, asked, reached, result);
        return None, tries;
      }
      ghost var sent, ws := requests, witnesses;
      var replacement, order, _ := FindNewPrimary(target.header.height, true);
      if replacement == None || env.hash(replacement.value.header) != env.hash(target.header) {
        NotReplacedNow(ps, witnesses, ws, order, sent, target.header, replacement, first.lo + |asked|);
        GaveUpNow(ps, witnesses, first, requests, trusted, now, asked, reached, result);
      }
      ReachWidens(first.primary, first.lo, sent, requests, trusted, target, now);
      OneFailed(first, requests, trusted, now);
      OneAttempt(ps, first.primary, |before|, requests, target);
      if replacement == None {
        return None, tries;
      }
      if env.hash(replacement.value.header) != env.hash(target.header) {
        return None, tries;
      }
      ghost var qs, lo, found, again := Providers(), |requests|, primary, requests;
      ghost var rest: seq<Attempt>;
      r, rest := VerifySkippingAgainstPrimary(trusted, replacement.value, now);
      GaveSince(found, replacement.value, |sent|, again, |before|, requests);
      AttemptBefore(ps, qs, first.primary, rest, |before|, lo, requests, target, replacement.value);
      ReachWidens(first.primary, first.lo, again, requests, trusted, target, now);
      FailedBefore(first, rest, if r.Some? then |rest| - 1 else |rest|, requests, trusted, now);
      tries := [first] + rest;
      if r == None {
        GaveUpSince(qs, ps, witnesses, rest[|rest| - 1], requests, trusted, now);
      }
    }

    lemma NoneFailed(tries: seq<Attempt>, sent: seq<Sent>, trusted: LightBlock, now: int)
      ensures AllFailed(tries, 0, sent, trusted, now)
    {
    }

    lemma OneFailed(first: Attempt, sent: seq<Sent>, trusted: LightBlock, now: int)
      requires CannotReach(first.primary, first.lo, sent, trusted, first.target, now)
      ensures AllFailed([first], 1, sent, trusted, now)
    {
      hide CannotReach;
    }
  }

  //---------------------------------------------------------------------------
  // A replacement that fails though a witness answered

  /**
    With a single witness that always answers, replacing and dropping the primary fails, and
    leaves the witness in both roles.
  */
  method OnlyWitnessPromoted(client: Client, height: nat) returns (r: Option<LightBlock>)
    requires |client.witnesses| == 1 && forall k :: client.Answer(client.witnesses[0], k, height).Found?
    modifies client
    ensures r == None && client.witnesses == old(client.witnesses) && client.primary == client.witnesses[0]
  {
    var found, order, kept := client.FindNewPrimary(height, true);
    r := found;
  }
}
