/** Skipping verification of the light client, and what its traces mean: light/client.go. */
module LightClient {
  import opened Power
  import opened LightVerifier

  /** Failures are benign (no answer, no such block, a height beyond the provider's) or malevolent. */
  datatype Response = Found(block: LightBlock) | Benign(tooHigh: bool) | Malevolent

  /**
    What a provider answers to its k-th request, for a height. Nothing is assumed
    of the answers, except that a block of another height is reported as an error.
  */
  type Provider = (nat, nat) -> Response

  function Checked(answer: Response, height: nat): (r: Response)
    ensures r.Found? ==> r.block.header.height == height
  {
    if answer.Found? && answer.block.header.height != height then Malevolent else answer
  }

  function Ask(source: Provider, k: nat, height: nat): (r: Response)
    ensures r.Found? ==> r.block.header.height == height
  {
    Checked(source(k, height), height)
  }

  datatype SkipResult =
    | Verified(trace: seq<LightBlock>)
    | CantBeTrusted                                  // the provider could not help, for benign reasons
    | Failed(from: nat, to: nat, reason: Outcome)    // a header did not verify
    | BadProvider(from: nat, to: nat)                // the provider misbehaved

  /** Each block verifies against the one before it. */
  ghost predicate IsTrace(env: Env, cfg: Config, now: int, trace: seq<LightBlock>) {
    && trace != []
    && forall i :: 0 <= i < |trace| - 1 ==> Verify(env, cfg, trace[i], trace[i + 1], now) == Ok
  }

  ghost function Last(trace: seq<LightBlock>): LightBlock
    requires trace != []
  {
    trace[|trace| - 1]
  }

  lemma TraceExtends(env: Env, cfg: Config, now: int, trace: seq<LightBlock>, b: LightBlock)
    requires trace != [] && IsTrace(env, cfg, now, trace) && Verify(env, cfg, Last(trace), b, now) == Ok
    ensures IsTrace(env, cfg, now, trace + [b])
  {
    hide Verify;
    var longer := trace + [b];
    forall i | 0 <= i < |longer| - 1 ensures Verify(env, cfg, longer[i], longer[i + 1], now) == Ok {
      if i < |trace| - 1 {
        assert longer[i] == trace[i] && longer[i + 1] == trace[i + 1];
      }
    }
  }

  /** The provider gave this block at one of its requests, which were for these heights. */
  ghost predicate FoundBy(source: Provider, asked: seq<nat>, b: LightBlock) {
    exists k :: 0 <= k < |asked| && asked[k] == b.header.height && Ask(source, k, b.header.height) == Found(b)
  }

  /**
    How far trust got on the way to the target: every hop goes to a block that the provider
    gave, and was made only because the target was not trusted from where it starts.
  */
  ghost predicate Approach(env: Env, cfg: Config, now: int, source: Provider, asked: seq<nat>, target: LightBlock,
                           reached: seq<LightBlock>)
  {
    && IsTrace(env, cfg, now, reached)
    && (forall i :: 0 <= i < |reached| - 1 ==> Verify(env, cfg, reached[i], target, now) == NewValSetCantBeTrusted)
    && (forall i :: 0 < i < |reached| ==> FoundBy(source, asked, reached[i]))
    && (forall i :: 0 < i < |reached| ==> reached[i].header.height < target.header.height)
  }

  /** The last request was for this height, and the provider could not help. */
  ghost predicate LastWasBenign(source: Provider, asked: seq<nat>, height: nat) {
    asked != [] && asked[|asked| - 1] == height && Ask(source, |asked| - 1, height).Benign?
  }

  /** The result, by where trust ended: by the answer to the last request, or by the verification of a block. */
  ghost predicate Explains(env: Env, cfg: Config, now: int, source: Provider, asked: seq<nat>, target: LightBlock,
                           reached: seq<LightBlock>, r: SkipResult)
    requires reached != []
  {
    var v := Last(reached);
    var direct := Verify(env, cfg, v, target, now);
    match r
    case Verified(trace) => direct == Ok && trace == reached + [target]
    case CantBeTrusted =>
      && direct == NewValSetCantBeTrusted
      && exists h :: v.header.height < h < target.header.height && LastWasBenign(source, asked, h)
    case BadProvider(from, to) =>
      && direct == NewValSetCantBeTrusted && asked != [] && asked[|asked| - 1] == to
      && from == v.header.height < to < target.header.height && Ask(source, |asked| - 1, to) == Malevolent
    case Failed(from, to, reason) =>
      && from == v.header.height && reason != Ok && reason != NewValSetCantBeTrusted
      && ((to == target.header.height && direct == reason) ||
          (direct == NewValSetCantBeTrusted && from < to < target.header.height && exists b: LightBlock ::
             b.header.height == to && FoundBy(source, asked, b) && Verify(env, cfg, v, b, now) == reason))
  }

  /** Cached blocks go from the target down, all are above what is verified, and one height has one block. */
  ghost predicate CacheInv(source: Provider, asked: seq<nat>, verified: LightBlock, target: LightBlock,
                           cache: seq<LightBlock>) {
    && cache != [] && cache[0] == target
    && (forall i :: 0 < i < |cache| ==> FoundBy(source, asked, cache[i]))
    && (forall i :: 0 < i < |cache| ==> verified.header.height < cache[i].header.height < target.header.height)
    && (forall i, j :: 0 <= i < j < |cache| ==> cache[j].header.height <= cache[i].header.height)
    && (forall i, j :: 0 <= i < j < |cache| && cache[j].header.height == cache[i].header.height ==>
      cache[j] == cache[i])
  }

  /** The blocks before position `depth` were tried and are not trusted yet. */
  ghost predicate Tried(env: Env, cfg: Config, now: int, verified: LightBlock, cache: seq<LightBlock>, depth: nat) {
    depth <= |cache| && forall i :: 0 <= i < depth ==>
      Verify(env, cfg, verified, cache[i], now) == NewValSetCantBeTrusted
  }

  lemma CacheCut(env: Env, cfg: Config, now: int, source: Provider, asked: seq<nat>, verified: LightBlock,
                 target: LightBlock, cache: seq<LightBlock>, depth: nat)
    requires CacheInv(source, asked, verified, target, cache) && 0 < depth < |cache|
    requires Tried(env, cfg, now, verified, cache, depth) && Verify(env, cfg, verified, cache[depth], now) == Ok
    ensures CacheInv(source, asked, cache[depth], target, cache[..depth])
    ensures Tried(env, cfg, now, cache[depth], cache[..depth], 0)
  {
    hide FoundBy, Verify;
    forall i | 0 < i < depth ensures cache[depth].header.height < cache[i].header.height {
      assert cache[i] != cache[depth];
    }
  }

  lemma CacheGrows(source: Provider, asked: seq<nat>, verified: LightBlock, target: LightBlock, cache: seq<LightBlock>,
                   b: LightBlock)
    requires CacheInv(source, asked, verified, target, cache) && FoundBy(source, asked, b)
    requires verified.header.height < b.header.height && b.header.height < target.header.height
    requires b.header.height < Last(cache).header.height || b == Last(cache)
    ensures CacheInv(source, asked, verified, target, cache + [b])
  {
    hide FoundBy;
    forall i | 0 <= i < |cache| ensures b.header.height < cache[i].header.height || b == cache[i] {
      assert Last(cache).header.height <= cache[i].header.height;
      assert i < |cache| - 1 && Last(cache).header.height == cache[i].header.height ==> Last(cache) == cache[i];
    }
  }

  /** What was given before is still given when more has been asked. */
  lemma AskedMore(env: Env, cfg: Config, now: int, source: Provider, asked: seq<nat>, verified: LightBlock,
                  target: LightBlock, cache: seq<LightBlock>, reached: seq<LightBlock>, height: nat)
    requires CacheInv(source, asked, verified, target, cache) && Approach(env, cfg, now, source, asked, target, reached)
    ensures CacheInv(source, asked + [height], verified, target, cache)
    ensures Approach(env, cfg, now, source, asked + [height], target, reached)
  {
    hide Verify, IsTrace;
    forall b | FoundBy(source, asked, b) ensures FoundBy(source, asked + [height], b) {
      var k :| 0 <= k < |asked| && asked[k] == b.header.height && Ask(source, k, b.header.height) == Found(b);
      assert (asked + [height])[k] == asked[k];
    }
  }

  lemma ApproachExtends(env: Env, cfg: Config, now: int, source: Provider, asked: seq<nat>, target: LightBlock,
                        reached: seq<LightBlock>, b: LightBlock)
    requires reached != [] && Approach(env, cfg, now, source, asked, target, reached)
    requires Verify(env, cfg, Last(reached), b, now) == Ok && FoundBy(source, asked, b)
    requires Verify(env, cfg, Last(reached), target, now) == NewValSetCantBeTrusted &&
      b.header.height < target.header.height
    ensures Approach(env, cfg, now, source, asked, target, reached + [b])
  {
    hide Verify, IsTrace, FoundBy;
    TraceExtends(env, cfg, now, reached, b);
  }

  //---------------------------------------------------------------------------
  // Which heights are asked for

  /** The lowest height above `low` that was asked for, or else the target's. */
  ghost predicate IsLowest(asked: seq<nat>, low: nat, top: nat, h: nat) {
    h <= top && (h == top || (h in asked && low < h)) && forall a :: a in asked && low < a ==> h <= a
  }

  /** A request for the height 9/16 of the way from a block to the lowest one above it that was asked for before. */
  ghost predicate IsPivot(asked: seq<nat>, k: nat, b: LightBlock, top: nat, h: nat)
    requires k < |asked|
  {
    IsLowest(asked[..k], b.header.height, top, h) && asked[k] == b.header.height + (h - b.header.height) * 9 / 16
  }

  ghost predicate PivotAt(asked: seq<nat>, k: nat, reached: seq<LightBlock>, top: nat)
    requires k < |asked|
  {
    exists b: LightBlock, h: nat :: b in reached && IsPivot(asked, k, b, top, h)
  }

  /** Every request is for such a height, from some block that was reached. */
  ghost predicate Pivots(asked: seq<nat>, reached: seq<LightBlock>, top: nat) {
    forall k: nat :: k < |asked| ==> PivotAt(asked, k, reached, top)
  }

  /** The cache has every height above what is verified that was asked for. */
  ghost predicate CacheHolds(asked: seq<nat>, low: nat, cache: seq<LightBlock>) {
    forall a :: a in asked && low < a ==> exists i :: 0 <= i < |cache| && cache[i].header.height == a
  }

  lemma HoldsCut(source: Provider, asked: seq<nat>, verified: LightBlock, target: LightBlock, cache: seq<LightBlock>,
                 depth: nat)
    requires CacheInv(source, asked, verified, target, cache) && 0 < depth < |cache|
    requires CacheHolds(asked, verified.header.height, cache)
    ensures CacheHolds(asked, cache[depth].header.height, cache[..depth])
  {
    hide FoundBy;
    forall a | a in asked && cache[depth].header.height < a
      ensures exists i :: 0 <= i < depth && cache[..depth][i].header.height == a
    {
      var i :| 0 <= i < |cache| && cache[i].header.height == a;
      assert cache[..depth][i] == cache[i];
    }
  }

  lemma HoldsMore(asked: seq<nat>, low: nat, cache: seq<LightBlock>, b: LightBlock)
    requires CacheHolds(asked, low, cache)
    ensures CacheHolds(asked + [b.header.height], low, cache + [b])
    ensures CacheHolds(asked, low, cache + [b])
  {
    var more := cache + [b];
    assert more[|cache|] == b;
    forall a | a in asked && low < a ensures exists i :: 0 <= i < |more| && more[i].header.height == a {
      var i :| 0 <= i < |cache| && cache[i].header.height == a;
      assert more[i] == cache[i];
    }
  }

  lemma LowestCached(source: Provider, asked: seq<nat>, verified: LightBlock, target: LightBlock,
                     cache: seq<LightBlock>)
    requires CacheInv(source, asked, verified, target, cache) && CacheHolds(asked, verified.header.height, cache)
    ensures IsLowest(asked, verified.header.height, target.header.height, Last(cache).header.height)
  {
  }

  lemma PivotsNext(asked: seq<nat>, reached: seq<LightBlock>, top: nat, h: nat)
    requires reached != [] && Pivots(asked, reached, top) && IsLowest(asked, Last(reached).header.height, top, h)
    requires Last(reached).header.height <= h
    ensures var low := Last(reached).header.height; Pivots(asked + [low + (h - low) * 9 / 16], reached, top)
  {
    hide IsLowest;
    var b, low := Last(reached), Last(reached).header.height;
    var more := asked + [low + (h - low) * 9 / 16];
    forall k: nat | k < |more| ensures PivotAt(more, k, reached, top) {
      if k < |asked| {
        assert PivotAt(asked, k, reached, top);
        var x, g :| x in reached && IsPivot(asked, k, x, top, g);
        assert more[..k] == asked[..k] && IsPivot(more, k, x, top, g);
      } else {
        assert more[..k] == asked && IsPivot(more, k, b, top, h);
      }
    }
  }

  lemma PivotsReach(asked: seq<nat>, reached: seq<LightBlock>, top: nat, b: LightBlock)
    requires Pivots(asked, reached, top)
    ensures Pivots(asked, reached + [b], top)
  {
    hide IsPivot;
    forall k: nat | k < |asked| ensures PivotAt(asked, k, reached + [b], top) {
      assert PivotAt(asked, k, reached, top);
      var x, h :| x in reached && IsPivot(asked, k, x, top, h);
      assert x in reached + [b];
    }
  }

  /** The pivot lies strictly between what is verified and the lowest cached block. */
  lemma PivotBetween(low: nat, high: nat)
    requires low + 1 < high
    ensures low < low + (high - low) * 9 / 16 < high
  {
  }

  lemma Start(env: Env, cfg: Config, now: int, source: Provider, trusted: LightBlock, target: LightBlock)
    ensures Approach(env, cfg, now, source, [], target, [trusted])
    ensures CacheInv(source, [], trusted, target, [target]) && Tried(env, cfg, now, trusted, [target], 0)
    ensures Pivots([], [trusted], target.header.height) && CacheHolds([], trusted.header.height, [target])
  {
  }

  lemma FoundNow(source: Provider, asked: seq<nat>, b: LightBlock)
    requires Ask(source, |asked|, b.header.height) == Found(b)
    ensures FoundBy(source, asked + [b.header.height], b)
  {
    assert (asked + [b.header.height])[|asked|] == b.header.height;
  }

  /**
    Bisection towards the target. Success means a trace of verified hops from the
    trusted block to the target; failure always has a cause outside the client.
  */
  method VerifySkipping(env: Env, cfg: Config, source: Provider, trusted: LightBlock, target: LightBlock, now: int)
    returns (r: SkipResult, asked: seq<nat>, ghost reached: seq<LightBlock>)
    ensures reached != [] && reached[0] == trusted && Approach(env, cfg, now, source, asked, target, reached)
    ensures Explains(env, cfg, now, source, asked, target, reached, r)
    ensures Pivots(asked, reached, target.header.height)
    ensures r.Verified? ==> IsTrace(env, cfg, now, r.trace) && r.trace[0] == trusted && Last(r.trace) == target
  {
    hide Verify, IsTrace, FoundBy, Approach, Tried, CacheInv, Explains, Pivots, CacheHolds, IsLowest;
    var cache := [target];
    var depth := 0;
    var verified := trusted;
    var trace := [trusted];
    asked := [];
    Start(env, cfg, now, source, trusted, target);
    while true
      invariant 0 <= depth < |cache| && CacheInv(source, asked, verified, target, cache)
      invariant Tried(env, cfg, now, verified, cache, depth)
      invariant trace != [] && trace[0] == trusted && Last(trace) == verified
      invariant Approach(env, cfg, now, source, asked, target, trace)
      invariant Pivots(asked, trace, target.header.height) && CacheHolds(asked, verified.header.height, cache)
      decreases target.header.height - verified.header.height,
                cache[|cache| - 1].header.height - verified.header.height,
                |cache| - depth
    {
      var outcome := Verify(env, cfg, verified, cache[depth], now);
      VerifyOrders(env, cfg, verified, cache[depth], now);
      TriedFirst(env, cfg, now, verified, cache, depth);
      CacheAt(source, asked, verified, target, cache, depth);
      if outcome == Ok {
        if depth == 0 {
          ApproachIsTrace(env, cfg, now, source, asked, target, trace);
          TraceExtends(env, cfg, now, trace, target);
          ExplainsVerified(env, cfg, now, source, asked, target, trace);
          return Verified(trace + [target]), asked, trace;
        }
        HoldsCut(source, asked, verified, target, cache, depth);
        PivotsReach(asked, trace, target.header.height, cache[depth]);
        CacheCut(env, cfg, now, source, asked, verified, target, cache, depth);
        ApproachExtends(env, cfg, now, source, asked, target, trace, cache[depth]);
        verified := cache[depth];
        cache := cache[..depth];
        depth := 0;
        trace := trace + [verified];
      } else if outcome == NewValSetCantBeTrusted {
        TriedNext(env, cfg, now, verified, cache, depth);
        if depth == |cache| - 1 {
          var gap := cache[depth].header.height - verified.header.height;
          var pivot := verified.header.height + gap * 9 / 16;
          PivotBetween(verified.header.height, cache[depth].header.height);
          LowestCached(source, asked, verified, target, cache);
          PivotsNext(asked, trace, target.header.height, cache[depth].header.height);
          var answer := Ask(source, |asked|, pivot);
          AskedMore(env, cfg, now, source, asked, verified, target, cache, trace, pivot);
          ghost var earlier := asked;
          asked := asked + [pivot];
          match answer {
            case Benign(_) =>
              ExplainsAnswer(env, cfg, now, source, earlier, target, trace, pivot);
              return CantBeTrusted, asked, trace;
            case Malevolent =>
              ExplainsAnswer(env, cfg, now, source, earlier, target, trace, pivot);
              return BadProvider(verified.header.height, pivot), asked, trace;
            case Found(b) =>
              FoundNow(source, earlier, b);
              HoldsMore(earlier, verified.header.height, cache, b);
              HoldsMore(asked, verified.header.height, cache + [b], b);
              CacheGrows(source, asked, verified, target, cache, b);
              TriedGrows(env, cfg, now, verified, cache, depth + 1, b);
              cache := cache + [b];
              CacheGrows(source, asked, verified, target, cache, b);
              TriedGrows(env, cfg, now, verified, cache, depth + 1, b);
              cache := cache + [b];
          }
        }
        depth := depth + 1;
      } else {
        ExplainsFailed(env, cfg, now, source, asked, target, trace, cache[depth], outcome);
        return Failed(verified.header.height, cache[depth].header.height, outcome), asked, trace;
      }
    }
  }

  lemma CacheAt(source: Provider, asked: seq<nat>, verified: LightBlock, target: LightBlock, cache: seq<LightBlock>,
                depth: nat)
    requires CacheInv(source, asked, verified, target, cache) && depth < |cache|
    ensures cache[0] == target && cache[|cache| - 1].header.height <= cache[depth].header.height
    ensures depth > 0 ==>
      FoundBy(source, asked, cache[depth]) && verified.header.height < cache[depth].header.height < target.header.height
    ensures depth > 0 ==> cache[|cache| - 1].header.height <= cache[depth - 1].header.height
  {
    hide FoundBy;
  }

  lemma ExplainsVerified(env: Env, cfg: Config, now: int, source: Provider, asked: seq<nat>, target: LightBlock,
                         reached: seq<LightBlock>)
    requires reached != [] && Verify(env, cfg, Last(reached), target, now) == Ok
    ensures Explains(env, cfg, now, source, asked, target, reached, Verified(reached + [target]))
  {
    hide Verify;
  }

  /** The provider had no block for the next height between, or misbehaved. */
  lemma ExplainsAnswer(env: Env, cfg: Config, now: int, source: Provider, asked: seq<nat>, target: LightBlock,
                       reached: seq<LightBlock>, height: nat)
    requires reached != [] && Verify(env, cfg, Last(reached), target, now) == NewValSetCantBeTrusted
    requires Last(reached).header.height < height < target.header.height
    ensures Ask(source, |asked|, height).Benign? ==>
      Explains(env, cfg, now, source, asked + [height], target, reached, CantBeTrusted)
    ensures Ask(source, |asked|, height) == Malevolent ==>
      Explains(env, cfg, now, source, asked + [height], target, reached,
               BadProvider(Last(reached).header.height, height))
  {
    hide Verify;
    assert Ask(source, |asked|, height).Benign? ==> LastWasBenign(source, asked + [height], height);
  }

  lemma ExplainsFailed(env: Env, cfg: Config, now: int, source: Provider, asked: seq<nat>, target: LightBlock,
                       reached: seq<LightBlock>, b: LightBlock, reason: Outcome)
    requires reached != [] && Verify(env, cfg, Last(reached), b, now) == reason
    requires reason != Ok && reason != NewValSetCantBeTrusted
    requires
      || b == target
      || (Verify(env, cfg, Last(reached), target, now) == NewValSetCantBeTrusted && FoundBy(source, asked, b) &&
          Last(reached).header.height < b.header.height < target.header.height)
    ensures Explains(env, cfg, now, source, asked, target, reached,
                     Failed(Last(reached).header.height, b.header.height, reason))
  {
    hide Verify, FoundBy;
  }

  lemma TriedFirst(env: Env, cfg: Config, now: int, verified: LightBlock, cache: seq<LightBlock>, depth: nat)
    requires Tried(env, cfg, now, verified, cache, depth) && cache != []
    ensures depth > 0 ==> Verify(env, cfg, verified, cache[0], now) == NewValSetCantBeTrusted
  {
  }

  lemma TriedNext(env: Env, cfg: Config, now: int, verified: LightBlock, cache: seq<LightBlock>, depth: nat)
    requires Tried(env, cfg, now, verified, cache, depth) && depth < |cache|
    requires Verify(env, cfg, verified, cache[depth], now) == NewValSetCantBeTrusted
    ensures Tried(env, cfg, now, verified, cache, depth + 1)
  {
  }

  lemma TriedGrows(env: Env, cfg: Config, now: int, verified: LightBlock, cache: seq<LightBlock>, depth: nat,
                   b: LightBlock)
    requires Tried(env, cfg, now, verified, cache, depth)
    ensures Tried(env, cfg, now, verified, cache + [b], depth)
  {
    hide Verify;
  }

  lemma ApproachIsTrace(env: Env, cfg: Config, now: int, source: Provider, asked: seq<nat>, target: LightBlock,
                        reached: seq<LightBlock>)
    requires Approach(env, cfg, now, source, asked, target, reached)
    ensures IsTrace(env, cfg, now, reached)
  {
  }

  /** A target that is trusted directly is accepted at once, and one that is refused directly is refused. */
  lemma DirectDecides(env: Env, cfg: Config, now: int, source: Provider, asked: seq<nat>, target: LightBlock,
                      reached: seq<LightBlock>, r: SkipResult)
    requires reached != [] && Approach(env, cfg, now, source, asked, target, reached)
    requires Explains(env, cfg, now, source, asked, target, reached, r)
    requires Verify(env, cfg, reached[0], target, now) != NewValSetCantBeTrusted
    ensures reached == [reached[0]] && (r.Verified? <==> Verify(env, cfg, reached[0], target, now) == Ok)
  {
    hide Verify;
  }

  /** Two blocks of which the later one is not refused outright. */
  ghost predicate Compatible(env: Env, cfg: Config, now: int, a: LightBlock, b: LightBlock) {
    Verify(env, cfg, a, b, now) == Ok || Verify(env, cfg, a, b, now) == NewValSetCantBeTrusted
  }

  /** A provider that has a block for every height between, none of them refused, always leads to the target. */
  lemma HonestVerified(env: Env, cfg: Config, now: int, source: Provider, asked: seq<nat>, target: LightBlock,
                       reached: seq<LightBlock>, r: SkipResult)
    requires reached != [] && Approach(env, cfg, now, source, asked, target, reached)
    requires Explains(env, cfg, now, source, asked, target, reached, r)
    requires forall k, h :: reached[0].header.height < h < target.header.height ==> Ask(source, k, h).Found?
    requires forall a, b ::
      (a == reached[0] || FoundBy(source, asked, a)) && (b == target || FoundBy(source, asked, b)) &&
      a.header.height < b.header.height ==>
        Compatible(env, cfg, now, a, b)
    requires reached[0].header.height < target.header.height
    ensures r == Verified(reached + [target])
  {
    hide Verify, FoundBy, Ask;
    var v := Last(reached);
    if |reached| > 1 {
      TraceIncreases(env, cfg, now, reached, 0, |reached| - 1);
    }
    assert Compatible(env, cfg, now, v, target);
    forall b | FoundBy(source, asked, b) && v.header.height < b.header.height ensures Compatible(env, cfg, now, v, b) {
    }
  }

  //---------------------------------------------------------------------------
  // What a trace means

  /** Heights and times strictly increase along a trace. */
  lemma {:induction false} TraceIncreases(env: Env, cfg: Config, now: int, trace: seq<LightBlock>, i: nat, j: nat)
    requires IsTrace(env, cfg, now, trace) && i < j < |trace|
    ensures trace[i].header.height < trace[j].header.height && trace[i].header.time < trace[j].header.time
    decreases j
  {
    hide Verify;
    assert Verify(env, cfg, trace[j - 1], trace[j - 1 + 1], now) == Ok;
    VerifyOrders(env, cfg, trace[j - 1], trace[j], now);
    if i < j - 1 {
      TraceIncreases(env, cfg, now, trace, i, j - 1);
    }
  }

  ghost predicate Trustworthy(env: Env, cfg: Config, c: Chain, correct: set<Address>, now: int) {
    && Collisionless(env) && ChainLinked(env, c) && ValidTrustLevel(cfg.trustLevel)
    && TrustAssumption(env, cfg, c, correct, now)
  }

  /** Every block of a trace that starts at a canonical block is canonical. */
  lemma {:induction false} TraceSound(env: Env, cfg: Config, c: Chain, correct: set<Address>, now: int,
                                      trace: seq<LightBlock>, i: nat)
    requires Trustworthy(env, cfg, c, correct, now) && IsTrace(env, cfg, now, trace) && i < |trace|
    requires forall b :: b in trace ==> CorrectSignatures(env, c, correct, b)
    requires Canonical(c, trace[0])
    ensures Canonical(c, trace[i])
    decreases i
  {
    hide Verify, CorrectSignatures, Canonical, ChainLinked, Collisionless, TrustAssumption;
    if i > 0 {
      TraceSound(env, cfg, c, correct, now, trace, i - 1);
      assert Verify(env, cfg, trace[i - 1], trace[i - 1 + 1], now) == Ok;
      VerifySound(env, cfg, c, correct, trace[i - 1], trace[i], now);
    }
  }

  /** Whatever the hops, two verifications from canonical blocks never accept different headers at one height. */
  lemma TracesAgree(env: Env, cfg: Config, c: Chain, correct: set<Address>, now: int, s: seq<LightBlock>,
                    t: seq<LightBlock>)
    requires Trustworthy(env, cfg, c, correct, now) && IsTrace(env, cfg, now, s) && IsTrace(env, cfg, now, t)
    requires forall b :: b in s || b in t ==> CorrectSignatures(env, c, correct, b)
    requires Canonical(c, s[0]) && Canonical(c, t[0])
    requires Last(s).header.height == Last(t).header.height
    ensures Last(s).header == Last(t).header && Last(s).vals == Last(t).vals
  {
    hide Verify, Trustworthy, CorrectSignatures;
    TraceSound(env, cfg, c, correct, now, s, |s| - 1);
    TraceSound(env, cfg, c, correct, now, t, |t| - 1);
  }
}
