/**
  Cross-checking a verified header with the witnesses, and finding where a witness
  and the primary diverge: light/detector.go.
*/
module LightDetector {
  import opened Power
  import opened LightVerifier
  import opened LightClient
  import opened LightProviders

  //---------------------------------------------------------------------------
  // The point of divergence

  datatype Examination =
    | Diverged(sourceTrace: seq<LightBlock>, block: LightBlock)
    | TargetTooLow       // the conflicting block is below the trusted one
    | TraceTooLate       // the trace goes past the conflicting block in time as well
    | SourceFailed       // the source gave no block, another first block, or one that does not verify
    | NoDivergence

  ghost predicate SameHash(env: Env, a: LightBlock, b: LightBlock) {
    env.hash(a.header) == env.hash(b.header)
  }

  /**
    The source's trace leaves the given trace right after a common block: it ends in
    a different header of the same height, or below the height but not before the time
    of the next block of the trace.
  */
  ghost predicate DivergesAt(env: Env, cfg: Config, now: int, trace: seq<LightBlock>, i: nat,
                             sourceTrace: seq<LightBlock>) {
    && 0 < i < |trace|
    && |sourceTrace| > 1 && IsTrace(env, cfg, now, sourceTrace)
    && SameHash(env, sourceTrace[0], trace[i - 1])
    && var last := Last(sourceTrace).header;
       || (last.height == trace[i].header.height && !SameHash(env, Last(sourceTrace), trace[i]))
       || (last.height < trace[i].header.height && last.time >= trace[i].header.time)
  }

  ghost predicate Diverges(env: Env, cfg: Config, now: int, trace: seq<LightBlock>, sourceTrace: seq<LightBlock>,
                           block: LightBlock) {
    exists i: nat :: DivergesAt(env, cfg, now, trace, i, sourceTrace) && trace[i] == block
  }

  /** The target conflicts with a trace: no block of the trace is the target, and the trace gets as high. */
  ghost predicate Conflicting(env: Env, trace: seq<LightBlock>, target: LightBlock)
    requires trace != []
  {
    && target.header.height <= Last(trace).header.height
    && forall b :: b in trace && b.header.height == target.header.height ==> !SameHash(env, b, target)
  }

  /** Heights and times strictly increase. */
  ghost predicate Increasing(trace: seq<LightBlock>) {
    forall i, j :: 0 <= i < j < |trace| ==>
      trace[i].header.height < trace[j].header.height && trace[i].header.time < trace[j].header.time
  }

  lemma TraceIsIncreasing(env: Env, cfg: Config, now: int, trace: seq<LightBlock>)
    requires IsTrace(env, cfg, now, trace)
    ensures Increasing(trace)
  {
    forall i: nat, j: nat | i < j < |trace|
      ensures trace[i].header.height < trace[j].header.height && trace[i].header.time < trace[j].header.time
    {
      TraceIncreases(env, cfg, now, trace, i, j);
    }
  }

  /** A block that the source stands for: the target itself, or one it gave for a lower height of the trace. */
  ghost predicate OfSource(client: Client, source: ProviderID, lo: nat, sent: seq<Sent>, target: LightBlock,
                           b: LightBlock) {
    b == target || (b.header.height < target.header.height && client.Gave(source, b, lo, sent))
  }

  /** The source withheld the block of a height of the trace below the target. */
  ghost predicate WithheldOnTrace(client: Client, source: ProviderID, lo: nat, sent: seq<Sent>, trace: seq<LightBlock>,
                                  target: LightBlock) {
    exists b ::
      b in trace && b.header.height < target.header.height && client.Withheld(source, b.header.height, lo, sent)
  }

  /** The source stands for another block than the first of the trace. */
  ghost predicate OtherFirst(client: Client, source: ProviderID, lo: nat, sent: seq<Sent>, trace: seq<LightBlock>,
                             target: LightBlock)
    requires trace != []
  {
    exists b :: OfSource(client, source, lo, sent, target, b) && b.header.height == trace[0].header.height &&
      !SameHash(client.env, b, trace[0])
  }

  /**
    From a common block right before position i, verification with the source's answers does not
    get to its block of that position, or to the target if that comes before.
  */
  ghost predicate CannotVerify(client: Client, source: ProviderID, lo: nat, sent: seq<Sent>, trace: seq<LightBlock>,
                               target: LightBlock, now: int, i: nat)
  {
    0 < i < |trace| && exists from, block, k ::
      && OfSource(client, source, lo, sent, target, from) && SameHash(client.env, from, trace[i - 1])
      && OfSource(client, source, lo, sent, target, block) && from.header.height < block.header.height
      && (block.header.height == trace[i].header.height ||
        (block == target && target.header.height < trace[i].header.height))
      && lo <= k <= |sent| && client.CannotReach(source, k, sent, from, block, now)
  }

  /** Why the examination of a source failed. */
  ghost predicate SourceAtFault(client: Client, source: ProviderID, lo: nat, sent: seq<Sent>, trace: seq<LightBlock>,
                                target: LightBlock, now: int)
    requires trace != []
  {
    || WithheldOnTrace(client, source, lo, sent, trace, target)
    || OtherFirst(client, source, lo, sent, trace, target)
    || exists i :: CannotVerify(client, source, lo, sent, trace, target, now, i)
  }

  /**
    A source that gives every block, starts alike, and whose blocks verify directly from each other is not at fault.
  */
  lemma NotAtFault(client: Client, source: ProviderID, lo: nat, sent: seq<Sent>, trace: seq<LightBlock>,
                   target: LightBlock, now: int)
    requires trace != [] && !WithheldOnTrace(client, source, lo, sent, trace, target)
    requires !OtherFirst(client, source, lo, sent, trace, target)
    requires forall a, b ::
      (OfSource(client, source, lo, sent, target, a) && OfSource(client, source, lo, sent, target, b) &&
        a.header.height < b.header.height)
      ==> Verify(client.env, client.cfg, a, b, now) == Ok
    ensures !SourceAtFault(client, source, lo, sent, trace, target, now)
  {
    hide Verify;
    forall k, from, block | OfSource(client, source, lo, sent, target, from) &&
      OfSource(client, source, lo, sent, target, block) &&
      from.header.height < block.header.height
      ensures !client.CannotReach(source, k, sent, from, block, now)
    {
      forall asked: seq<nat>, reached: seq<LightBlock>, result: SkipResult |
        && reached != [] && reached[0] == from
        && Approach(client.env, client.cfg, now, client.Asked(source, k), asked, block, reached)
        && Explains(client.env, client.cfg, now, client.Asked(source, k), asked, block, reached, result)
        ensures result.Verified?
      {
        DirectDecides(client.env, client.cfg, now, client.Asked(source, k), asked, block, reached, result);
      }
    }
  }

  lemma OfSourceWidens(client: Client, source: ProviderID, lo: nat, sent: seq<Sent>, sent': seq<Sent>,
                       target: LightBlock, b: LightBlock)
    requires OfSource(client, source, lo, sent, target, b) && sent <= sent'
    ensures OfSource(client, source, lo, sent', target, b)
  {
  }

  lemma FaultIsReach(client: Client, source: ProviderID, lo: nat, earlier: seq<Sent>, trace: seq<LightBlock>,
                     target: LightBlock, now: int, i: nat, from: LightBlock, block: LightBlock, asked: seq<nat>,
                     reached: seq<LightBlock>, result: SkipResult)
    requires 0 < i < |trace| && lo <= |earlier| && Collisionless(client.env) && Increasing(trace)
    requires OfSource(client, source, lo, earlier, target, from) && SameHash(client.env, from, trace[i - 1])
    requires OfSource(client, source, lo, earlier, target, block)
    requires block.header.height == trace[i].header.height ||
      (block == target && trace[i - 1].header.height < target.header.height < trace[i].header.height)
    requires reached != [] && reached[0] == from && !result.Verified?
    requires Approach(client.env, client.cfg, now, client.Asked(source, |earlier|), asked, block, reached)
    requires Explains(client.env, client.cfg, now, client.Asked(source, |earlier|), asked, block, reached, result)
    ensures SourceAtFault(client, source, lo, earlier + client.SentTo(source, asked), trace, target, now)
  {
    hide Approach, Explains;
    var sent := earlier + client.SentTo(source, asked);
    OfSourceWidens(client, source, lo, earlier, sent, target, from);
    OfSourceWidens(client, source, lo, earlier, sent, target, block);
    assert from.header.height < block.header.height;
    client.ReachEnds(source, earlier, from, block, now, asked, reached, result);
    assert CannotVerify(client, source, lo, sent, trace, target, now, i);
  }

  /**
    Walks along a verified trace with the blocks of another provider. A divergence is
    reported with the source's own verified trace out of the last common block.
  */
  method ExamineConflictingHeader(client: Client, trace: seq<LightBlock>, target: LightBlock, source: ProviderID,
                                  now: int)
    returns (r: Examination)
    requires trace != [] && Increasing(trace) && Collisionless(client.env)
    modifies client`requests
    ensures old(client.requests) <= client.requests
    ensures r.Diverged? ==> Diverges(client.env, client.cfg, now, trace, r.sourceTrace, r.block)
    ensures r == TargetTooLow <==> target.header.height < trace[0].header.height
    ensures r == TraceTooLate ==>
      exists b :: b in trace && b.header.height > target.header.height && b.header.time > target.header.time
    ensures r == NoDivergence ==> !Conflicting(client.env, trace, target)
    ensures r == SourceFailed ==>
      SourceAtFault(client, source, |old(client.requests)|, client.requests, trace, target, now)
  {
    hide Approach, Explains, IsTrace;
    ghost var env, cfg, lo := client.env, client.cfg, |client.requests|;
    if target.header.height < trace[0].header.height {
      return TargetTooLow;
    }
    var previous := trace[0];
    var sourceTrace: seq<LightBlock> := [];
    for i := 0 to |trace|
      invariant old(client.requests) <= client.requests
      invariant i > 0 ==> SameHash(env, previous, trace[i - 1]) && previous.header.height <= target.header.height
      invariant i > 0 ==> OfSource(client, source, lo, client.requests, target, previous)
      invariant i > 0 && previous.header.height == target.header.height ==> SameHash(env, trace[i - 1], target)
    {
      var block := trace[i];
      ghost var earlier := client.requests;
      if block.header.height > target.header.height {
        if block.header.time > target.header.time {
          return TraceTooLate;
        }
        if previous.header.height != target.header.height {
          var result, reached, asked := client.SkipWith(source, previous, target, now);
          if !result.Verified? {
            FaultIsReach(client, source, lo, earlier, trace, target, now, i, previous, target, asked, reached, result);
            return SourceFailed;
          }
          sourceTrace := result.trace;
        }
        assert DivergesAt(env, cfg, now, trace, i, sourceTrace);
        return Diverged(sourceTrace, block);
      }
      var sourceBlock := target;
      if block.header.height != target.header.height {
        var answer := client.Request(source, block.header.height);
        if !answer.Found? {
          client.WithheldAt(source, |earlier|, block.header.height, lo, client.requests);
          return SourceFailed;
        }
        sourceBlock := answer.block;
        client.GaveAt(source, |earlier|, sourceBlock, lo, client.requests);
      }
      if i > 0 {
        OfSourceWidens(client, source, lo, earlier, client.requests, target, previous);
      }
      earlier := client.requests;
      assert OfSource(client, source, lo, earlier, target, sourceBlock);
      if i == 0 {
        if client.env.hash(sourceBlock.header) != client.env.hash(block.header) {
          return SourceFailed;
        }
        previous := sourceBlock;
      } else {
        var result, reached, asked := client.SkipWith(source, previous, sourceBlock, now);
        if !result.Verified? {
          FaultIsReach(client, source, lo, earlier, trace, target, now, i, previous, sourceBlock, asked, reached,
                       result);
          return SourceFailed;
        }
        sourceTrace := result.trace;
        if client.env.hash(sourceBlock.header) != client.env.hash(block.header) {
          assert DivergesAt(env, cfg, now, trace, i, sourceTrace);
          return Diverged(sourceTrace, block);
        }
        OfSourceWidens(client, source, lo, earlier, client.requests, target, sourceBlock);
        previous := sourceBlock;
      }
    }
    return NoDivergence;
  }

  /** Under the trust assumption no divergence is ever reported: an alarm means the assumption is broken. */
  lemma NoFalseAlarm(env: Env, cfg: Config, c: Chain, correct: set<Address>, now: int, trace: seq<LightBlock>, i: nat,
                     sourceTrace: seq<LightBlock>)
    requires Trustworthy(env, cfg, c, correct, now) && IsTrace(env, cfg, now, trace)
    requires forall g: nat, h: nat :: g < h ==> c.header(g).time < c.header(h).time
    requires forall b :: b in trace || b in sourceTrace ==> CorrectSignatures(env, c, correct, b)
    requires Canonical(c, trace[0])
    requires sourceTrace != [] && env.valsHash(sourceTrace[0].vals) == sourceTrace[0].header.validatorsHash
    ensures !DivergesAt(env, cfg, now, trace, i, sourceTrace)
  {
    hide Verify, CorrectSignatures, TrustAssumption;
    if DivergesAt(env, cfg, now, trace, i, sourceTrace) {
      TraceSound(env, cfg, c, correct, now, trace, i - 1);
      TraceSound(env, cfg, c, correct, now, trace, i);
      var h := sourceTrace[0].header.height;
      assert c.header(h).validatorsHash == env.valsHash(c.vals(h));
      assert Canonical(c, sourceTrace[0]);
      TraceSound(env, cfg, c, correct, now, sourceTrace, |sourceTrace| - 1);
    }
  }

  //---------------------------------------------------------------------------
  // Comparing with one witness

  datatype Comparison =
    | Matches
    | Conflicts(block: LightBlock)
    | BadWitness
    | Unhelpful
    | PrioritiesDiverge

  /** A block in conflict with a header: another one of its height, or a lower one that is not earlier. */
  ghost predicate InConflict(env: Env, l: LightBlock, b: LightBlock) {
    || (b.header.height == l.header.height && !SameHash(env, l, b))
    || (b.header.height < l.header.height && b.header.time >= l.header.time)
  }

  /** The k-th request was to this provider for this height, or for its latest block if that is 0. */
  ghost predicate Went(sent: seq<Sent>, k: nat, p: ProviderID, height: nat) {
    k < |sent| && sent[k] == Sent(p, height)
  }

  /** Asked for its latest block at the k-th request a provider had none, or a higher one but then not the target's. */
  ghost predicate NoTarget(client: Client, p: ProviderID, height: nat, k: nat, sent: seq<Sent>) {
    var latest := client.answers(p, k, 0);
    && Went(sent, k, p, 0)
    && (!latest.Found? || (latest.block.header.height > height && Went(sent, k + 1, p, height) &&
                           !client.Answer(p, k + 1, height).Found?))
  }

  /** Asked for its latest block the provider had this one. */
  ghost predicate GaveLatest(client: Client, p: ProviderID, b: LightBlock, lo: nat, sent: seq<Sent>) {
    exists k: nat :: lo <= k && Went(sent, k, p, 0) && client.answers(p, k, 0) == Found(b)
  }

  /** A block of the header's height, as the witness gave it for that height or as its latest. */
  ghost predicate GaveTarget(client: Client, p: ProviderID, l: LightBlock, b: LightBlock, lo: nat, sent: seq<Sent>) {
    b.header.height == l.header.height && (client.Gave(p, b, lo, sent) || GaveLatest(client, p, b, lo, sent))
  }

  /** What the answers of a witness to the requests from the lo-th on were for a comparison to come out so. */
  ghost predicate Grounded(client: Client, l: LightBlock, p: ProviderID, c: Comparison, lo: nat, sent: seq<Sent>) {
    var first := client.Answer(p, lo, l.header.height);
    Went(sent, lo, p, l.header.height) &&
    match c
    case Matches =>
      exists b :: GaveTarget(client, p, l, b, lo, sent) && SameHash(client.env, l, b) && b.priorities == l.priorities
    case PrioritiesDiverge =>
      exists b :: GaveTarget(client, p, l, b, lo, sent) && SameHash(client.env, l, b) && b.priorities != l.priorities
    case Conflicts(b) =>
      InConflict(client.env, l, b) && (GaveTarget(client, p, l, b, lo, sent) || GaveLatest(client, p, b, lo, sent))
    case BadWitness =>
      first == Malevolent || (first == Benign(true) && BehindThenNone(client, l, p, lo + 1, sent))
    case Unhelpful =>
      first.Benign? && (first == Benign(true) ==>
        NoTarget(client, p, l.header.height, lo + 1, sent) || StaysBehind(client, l, p, lo + 1, sent))
  }

  /** The latest block is below the header and earlier. */
  ghost predicate IsBehind(client: Client, l: LightBlock, p: ProviderID, k: nat, sent: seq<Sent>) {
    var latest := client.answers(p, k, 0);
    && Went(sent, k, p, 0)
    && latest.Found? && latest.block.header.height < l.header.height && latest.block.header.time < l.header.time
  }

  /** First the witness is behind; after the wait it has no block. */
  ghost predicate BehindThenNone(client: Client, l: LightBlock, p: ProviderID, k: nat, sent: seq<Sent>) {
    IsBehind(client, l, p, k, sent) && NoTarget(client, p, l.header.height, k + 1, sent)
  }

  /** The witness is behind before and after the wait. */
  ghost predicate StaysBehind(client: Client, l: LightBlock, p: ProviderID, k: nat, sent: seq<Sent>) {
    IsBehind(client, l, p, k, sent) && IsBehind(client, l, p, k + 1, sent)
  }

  /** The block of the target height, or else the witness's latest one. */
  method GetTargetBlockOrLatest(client: Client, height: nat, from: ProviderID) returns (isTarget: bool, r: Response)
    modifies client`requests
    ensures old(client.requests) + [Sent(from, 0)] <= client.requests
    ensures !r.Found? <==> NoTarget(client, from, height, |old(client.requests)|, client.requests)
    ensures r.Found? ==>
      (isTarget <==> r.block.header.height == height) && (!isTarget ==> r.block.header.height < height)
    ensures r.Found? && !isTarget ==>
      client.answers(from, |old(client.requests)|, 0) == r && client.requests == old(client.requests) + [Sent(from, 0)]
    ensures r.Found? ==>
      || GaveLatest(client, from, r.block, |old(client.requests)|, client.requests)
      || client.Gave(from, r.block, |old(client.requests)|, client.requests)
  {
    ghost var k := |client.requests|;
    r := client.RequestLatest(from);
    assert Went(client.requests, k, from, 0);
    if !r.Found? {
      return false, r;
    }
    if r.block.header.height == height {
      return true, r;
    }
    if r.block.header.height > height {
      r := client.Request(from, height);
      assert Went(client.requests, k, from, 0) && Went(client.requests, k + 1, from, height);
      if r.Found? {
        client.GaveAt(from, k + 1, r.block, k, client.requests);
      }
      return true, r;
    }
    return false, r;
  }

  /** A witness that is behind is asked for its latest block, and once more after a wait. */
  method CompareWithWitness(client: Client, l: LightBlock, from: ProviderID) returns (r: Comparison)
    modifies client`requests
    ensures old(client.requests) <= client.requests
    ensures Grounded(client, l, from, r, |old(client.requests)|, client.requests)
  {
    ghost var lo := |client.requests|;
    var answer := client.Request(from, l.header.height);
    if answer.Found? {
      client.GaveAt(from, lo, answer.block, lo, client.requests);
    }
    if answer == Benign(true) {
      var isTarget;
      isTarget, answer := GetTargetBlockOrLatest(client, l.header.height, from);
      if !answer.Found? {
        return Unhelpful;
      }
      GivenSince(client, from, answer.block, lo + 1, lo, client.requests);
      if !isTarget {
        if answer.block.header.time >= l.header.time {
          return Conflicts(answer.block);
        }
        assert IsBehind(client, l, from, lo + 1, client.requests);
        isTarget, answer := GetTargetBlockOrLatest(client, l.header.height, from);
        assert IsBehind(client, l, from, lo + 1, client.requests);
        if !answer.Found? {
          return BadWitness;
        }
        GivenSince(client, from, answer.block, lo + 2, lo, client.requests);
        if !isTarget {
          if answer.block.header.time >= l.header.time {
            return Conflicts(answer.block);
          }
          assert IsBehind(client, l, from, lo + 2, client.requests);
          return Unhelpful;
        }
      }
    }
    match answer {
      case Benign(_) => return Unhelpful;
      case Malevolent => return BadWitness;
      case Found(b) =>
        assert GaveTarget(client, from, l, b, lo, client.requests);
        if client.env.hash(l.header) != client.env.hash(b.header) {
          return Conflicts(b);
        }
        if l.priorities != b.priorities {
          return PrioritiesDiverge;
        }
        return Matches;
    }
  }

  lemma GivenSince(client: Client, p: ProviderID, b: LightBlock, from: nat, lo: nat, sent: seq<Sent>)
    requires lo <= from && (GaveLatest(client, p, b, from, sent) || client.Gave(p, b, from, sent))
    ensures GaveLatest(client, p, b, lo, sent) || client.Gave(p, b, lo, sent)
  {
  }

  //---------------------------------------------------------------------------
  // Detection

  /** What is sent to a provider: the block it should look at, and the trace that contradicts it. */
  datatype Evidence = Evidence(conflicted: LightBlock, trusted: LightBlock, common: LightBlock)

  datatype Detection =
    | Agreed
    | NoWitnesses
    | NotCrossReferenced
    | ShortTrace
    | PriorityMismatch
    | Attack(againstPrimary: Evidence, againstWitness: Option<Evidence>)

  /** The evidence is a block of one trace against the two ends of a trace that diverges from it. */
  ghost predicate Shows(env: Env, cfg: Config, now: int, trace: seq<LightBlock>, sourceTrace: seq<LightBlock>,
                        e: Evidence) {
    && Diverges(env, cfg, now, trace, sourceTrace, e.conflicted)
    && sourceTrace != [] && e.common == sourceTrace[0] && e.trusted == Last(sourceTrace)
  }

  /** Why a challenging block came to nothing: out of range, no conflict, or a source at fault. */
  ghost predicate Unproved(client: Client, source: ProviderID, lo: nat, sent: seq<Sent>, trace: seq<LightBlock>,
                           target: LightBlock, now: int)
    requires trace != []
  {
    || target.header.height < trace[0].header.height
    || (exists b :: b in trace && b.header.height > target.header.height && b.header.time > target.header.time)
    || !Conflicting(client.env, trace, target)
    || SourceAtFault(client, source, lo, sent, trace, target, now)
  }

  ghost predicate UnprovedIn(client: Client, source: ProviderID, lo: nat, sent: seq<Sent>, trace: seq<LightBlock>,
                             target: LightBlock, now: int)
    requires trace != []
  {
    exists from: nat, to: seq<Sent> ::
      lo <= from <= |to| && to <= sent && Unproved(client, source, from, to, trace, target, now)
  }

  /**
    The evidence against the primary stands, and so does that against the witness; there is none of the latter only if
    the primary, asked about the witness's trace in its turn, gave no case against it.
  */
  ghost predicate ShownAttack(client: Client, primary: ProviderID, lo: nat, sent: seq<Sent>, trace: seq<LightBlock>,
                              d: Detection, now: int)
    requires d.Attack?
  {
    exists witnessTrace: seq<LightBlock> ::
      && Shows(client.env, client.cfg, now, trace, witnessTrace, d.againstPrimary)
      && match d.againstWitness
         case Some(e) =>
           exists primaryTrace: seq<LightBlock> ::
             Shows(client.env, client.cfg, now, witnessTrace, primaryTrace, e)
         case None => UnprovedIn(client, primary, lo, sent, witnessTrace, d.againstPrimary.conflicted, now)
  }

  lemma DivergedTraces(client: Client, trace: seq<LightBlock>, sourceTrace: seq<LightBlock>, block: LightBlock,
                       now: int)
    requires Diverges(client.env, client.cfg, now, trace, sourceTrace, block)
    ensures |sourceTrace| > 1 && IsTrace(client.env, client.cfg, now, sourceTrace)
  {
  }

  /** A conflict that stands up to examination is an attack, and evidence goes both ways. */
  method HandleConflictingHeaders(client: Client, trace: seq<LightBlock>, challenging: LightBlock, from: ProviderID,
                                  now: int)
    returns (r: Option<Detection>)
    requires trace != [] && Increasing(trace) && Collisionless(client.env)
    modifies client`requests
    ensures old(client.requests) <= client.requests
    ensures r.Some? ==>
      && r.value.Attack?
      && ShownAttack(client, client.primary, |old(client.requests)|, client.requests, trace, r.value, now)
    ensures r == None ==> Unproved(client, from, |old(client.requests)|, client.requests, trace, challenging, now)
  {
    hide SourceAtFault, Diverges;
    var first := ExamineConflictingHeader(client, trace, challenging, from, now);
    if !first.Diverged? {
      return None;
    }
    DivergedTraces(client, trace, first.sourceTrace, first.block, now);
    ghost var env, cfg := client.env, client.cfg;
    var witnessTrace := first.sourceTrace;
    var againstPrimary := Evidence(first.block, witnessTrace[|witnessTrace| - 1], witnessTrace[0]);
    assert Shows(env, cfg, now, trace, witnessTrace, againstPrimary);
    TraceIsIncreasing(env, cfg, now, witnessTrace);
    ghost var asked := |client.requests|;
    var second := ExamineConflictingHeader(client, witnessTrace, first.block, client.primary, now);
    if !second.Diverged? {
      UnprovedSince(client, client.primary, |old(client.requests)|, asked, client.requests, witnessTrace, first.block,
        now);
      return Some(Attack(againstPrimary, None));
    }
    DivergedTraces(client, witnessTrace, second.sourceTrace, second.block, now);
    var primaryTrace := second.sourceTrace;
    var againstWitness := Evidence(second.block, primaryTrace[|primaryTrace| - 1], primaryTrace[0]);
    assert Shows(env, cfg, now, witnessTrace, primaryTrace, againstWitness);
    return Some(Attack(againstPrimary, Some(againstWitness)));
  }

  /** A comparison that some of the requests from the lo-th on ground. */
  ghost predicate GroundedIn(client: Client, l: LightBlock, p: ProviderID, c: Comparison, lo: nat, sent: seq<Sent>) {
    exists from: nat, to: seq<Sent> :: lo <= from && to <= sent && Grounded(client, l, p, c, from, to)
  }

  /**
    A comparison that was dealt with: grounded in answers, and a conflict only if it did not stand up to examination.
  */
  ghost predicate Settled(client: Client, trace: seq<LightBlock>, p: ProviderID, c: Comparison, now: int, lo: nat,
                          sent: seq<Sent>)
    requires trace != []
  {
    && GroundedIn(client, trace[|trace| - 1], p, c, lo, sent)
    && (c.Conflicts? ==> UnprovedIn(client, p, lo, sent, trace, c.block, now))
  }

  /**
    Halfway through: who is still to answer, who is to be removed, and the verdicts so
    far. PrioritiesDiverge, which ends the comparison at once, stands for no verdict yet.
  */
  ghost predicate SortingOut(client: Client, trace: seq<LightBlock>, now: int, ws: seq<ProviderID>,
                             outstanding: seq<nat>, toRemove: seq<nat>, verdicts: seq<Comparison>, matched: bool,
                             lo: nat, sent: seq<Sent>)
    requires trace != []
  {
    && |verdicts| == |ws|
    && Distinct(outstanding) && Distinct(toRemove)
    && (forall i :: i in outstanding ==> i < |ws| && verdicts[i] == PrioritiesDiverge)
    && (forall i :: 0 <= i < |ws| && i !in outstanding ==>
          Settled(client, trace, ws[i], verdicts[i], now, lo, sent) && verdicts[i] != PrioritiesDiverge)
    && (forall i: nat :: i in toRemove <==> i < |ws| && (verdicts[i].Conflicts? || verdicts[i] == BadWitness))
    && (matched <==> Matches in verdicts)
  }

  lemma SortingOutStarts(client: Client, trace: seq<LightBlock>, now: int, ws: seq<ProviderID>, outstanding: seq<nat>,
                         lo: nat, sent: seq<Sent>)
    requires trace != [] && outstanding == seq(|ws|, k => k)
    ensures SortingOut(client, trace, now, ws, outstanding, [], seq(|ws|, k => PrioritiesDiverge), false, lo, sent)
  {
    forall i | 0 <= i < |ws| ensures i in outstanding {
      assert outstanding[i] == i;
    }
  }

  lemma OutstandingIsWitness(client: Client, trace: seq<LightBlock>, now: int, ws: seq<ProviderID>,
                             outstanding: seq<nat>, toRemove: seq<nat>, verdicts: seq<Comparison>, matched: bool,
                             lo: nat, sent: seq<Sent>, next: nat)
    requires trace != [] && next < |outstanding|
    requires SortingOut(client, trace, now, ws, outstanding, toRemove, verdicts, matched, lo, sent)
    ensures outstanding[next] < |ws| == |verdicts|
  {
    assert outstanding[next] in outstanding;
  }

  lemma SettledSince(client: Client, trace: seq<LightBlock>, p: ProviderID, c: Comparison, now: int, lo: nat,
                     sent: seq<Sent>, sent': seq<Sent>)
    requires trace != [] && Settled(client, trace, p, c, now, lo, sent) && sent <= sent'
    ensures Settled(client, trace, p, c, now, lo, sent')
  {
    hide Grounded, Unproved;
  }

  lemma SortOutNext(client: Client, trace: seq<LightBlock>, now: int, ws: seq<ProviderID>, outstanding: seq<nat>,
                    toRemove: seq<nat>, verdicts: seq<Comparison>, matched: bool, lo: nat, sent: seq<Sent>,
                    sent': seq<Sent>, next: nat, c: Comparison)
    requires trace != [] && next < |outstanding| && sent <= sent'
    requires SortingOut(client, trace, now, ws, outstanding, toRemove, verdicts, matched, lo, sent)
    requires outstanding[next] < |ws| == |verdicts| && Settled(client, trace, ws[outstanding[next]], c, now, lo, sent')
    requires c != PrioritiesDiverge
    ensures var index := outstanding[next];
      SortingOut(client, trace, now, ws, DropAt(outstanding, next),
                 if c.Conflicts? || c == BadWitness then toRemove + [index] else toRemove,
                 verdicts[index := c], matched || c == Matches, lo, sent')
  {
    hide Settled;
    forall i | 0 <= i < |ws| && Settled(client, trace, ws[i], verdicts[i], now, lo, sent)
      ensures Settled(client, trace, ws[i], verdicts[i], now, lo, sent')
    {
      SettledSince(client, trace, ws[i], verdicts[i], now, lo, sent, sent');
    }
    var index := outstanding[next];
    assert index in outstanding;
    if matched {
      var i :| 0 <= i < |verdicts| && verdicts[i] == Matches;
      assert verdicts[index := c][i] == Matches;
    }
    assert c == Matches ==> verdicts[index := c][index] == Matches;
  }

  lemma UnprovedSince(client: Client, p: ProviderID, lo: nat, from: nat, sent: seq<Sent>, trace: seq<LightBlock>,
                      target: LightBlock, now: int)
    requires trace != [] && lo <= from <= |sent| && Unproved(client, p, from, sent, trace, target, now)
    ensures UnprovedIn(client, p, lo, sent, trace, target, now)
  {
  }

  lemma ShownSince(client: Client, primary: ProviderID, lo: nat, from: nat, sent: seq<Sent>, trace: seq<LightBlock>,
                   d: Detection, now: int)
    requires d.Attack? && lo <= from && ShownAttack(client, primary, from, sent, trace, d, now)
    ensures ShownAttack(client, primary, lo, sent, trace, d, now)
  {
    hide Shows, Unproved;
  }

  lemma GroundedSince(client: Client, l: LightBlock, p: ProviderID, c: Comparison, lo: nat, from: nat, to: seq<Sent>,
                      sent: seq<Sent>)
    requires Grounded(client, l, p, c, from, to) && lo <= from && to <= sent
    ensures GroundedIn(client, l, p, c, lo, sent) && from < |to|
  {
  }

  /**
    Trusts the last block of a trace only if some witness has the same header, and
    keeps exactly the witnesses that agreed or had nothing to say.
  */
  method DetectDivergence(client: Client, trace: seq<LightBlock>, now: int)
    returns (r: Detection, ghost verdicts: seq<Comparison>, ghost kept: seq<nat>)
    requires trace != [] && Increasing(trace) && Collisionless(client.env)
    modifies client
    ensures client.primary == old(client.primary)
    ensures r == ShortTrace <==> |trace| < 2
    ensures r == NoWitnesses ==>
      && client.witnesses == old(client.witnesses) && |verdicts| == |client.witnesses|
      && forall i :: 0 <= i < |verdicts| ==>
           Settled(client, trace, client.witnesses[i], verdicts[i], now, |old(client.requests)|, client.requests) &&
           (verdicts[i].Conflicts? || verdicts[i] == BadWitness)
    ensures r == PriorityMismatch ==>
      exists w :: w in old(client.witnesses) &&
        GroundedIn(client, trace[|trace| - 1], w, PrioritiesDiverge, |old(client.requests)|, client.requests)
    ensures r.Attack? ==>
      && ShownAttack(client, client.primary, |old(client.requests)|, client.requests, trace, r, now)
      && client.witnesses == old(client.witnesses)
    ensures r == Agreed || r == NotCrossReferenced ==>
      && |verdicts| == |old(client.witnesses)|
      && (forall i :: 0 <= i < |verdicts| ==>
            Settled(client, trace, old(client.witnesses)[i], verdicts[i], now, |old(client.requests)|, client.requests))
      && (r == Agreed <==> Matches in verdicts)
      && PrioritiesDiverge !in verdicts
      && Keeps(old(client.witnesses), client.witnesses, kept)
      && (forall i: nat :: i < |verdicts| ==> (i in kept <==> verdicts[i] == Matches || verdicts[i] == Unhelpful))
  {
    hide Grounded, GroundedIn, Unproved, UnprovedIn, ShownAttack, Distinct, Keeps, DropAt, Increasing, Collisionless;
    verdicts, kept := [], [];
    if |trace| < 2 {
      return ShortTrace, verdicts, kept;
    }
    if client.witnesses == [] {
      return NoWitnesses, verdicts, kept;
    }
    var last := trace[|trace| - 1];
    var matched := false;
    var toRemove: seq<nat> := [];
    var outstanding: seq<nat> := seq(|client.witnesses|, k => k);
    ghost var before, lo := client.witnesses, |client.requests|;
    verdicts := seq(|before|, k => PrioritiesDiverge);
    SortingOutStarts(client, trace, now, before, outstanding, lo, client.requests);
    while outstanding != []
      invariant client.witnesses == before && client.primary == old(client.primary)
      invariant old(client.requests) <= client.requests
      invariant SortingOut(client, trace, now, before, outstanding, toRemove, verdicts, matched, lo, client.requests)
      decreases |outstanding|
    {
      hide SortingOut;
      var next := client.arrivals(|client.requests|) % |outstanding|;
      var index := outstanding[next];
      ghost var sent := client.requests;
      OutstandingIsWitness(client, trace, now, before, outstanding, toRemove, verdicts, matched, lo, sent, next);
      var comparison := CompareWithWitness(client, last, client.witnesses[index]);
      ghost var to := client.requests;
      GroundedSince(client, last, before[index], comparison, lo, |sent|, to, to);
      match comparison {
        case Conflicts(block) =>
          var attack := HandleConflictingHeaders(client, trace, block, client.witnesses[index], now);
          if attack.Some? {
            ShownSince(client, client.primary, lo, |to|, client.requests, trace, attack.value, now);
            return attack.value, verdicts, kept;
          }
          UnprovedSince(client, before[index], lo, |to|, client.requests, trace, block, now);
        case PrioritiesDiverge =>
          assert client.witnesses[index] in before;
          return PriorityMismatch, verdicts, kept;
        case _ =>
      }
      GroundedSince(client, last, before[index], comparison, lo, |sent|, to, client.requests);
      SortOutNext(client, trace, now, before, outstanding, toRemove, verdicts, matched, lo, sent, client.requests, next,
        comparison);
      outstanding := DropAt(outstanding, next);
      verdicts := verdicts[index := comparison];
      if comparison == Matches {
        matched := true;
      } else if comparison.Conflicts? || comparison == BadWitness {
        toRemove := toRemove + [index];
      }
    }
    var ok;
    ok, kept := client.RemoveWitnesses(toRemove);
    if !ok {
      AllIndexes(toRemove, |before|);
      return NoWitnesses, verdicts, kept;
    }
    return if matched then Agreed else NotCrossReferenced, verdicts, kept;
  }
}
