/** Header verification of the light client: light/verifier.go. */
module LightVerifier {
  import opened Power

  type Hash = nat

  datatype Header = Header(
    chainID: nat,
    height: nat,
    time: int,
    validatorsHash: Hash,
    nextValidatorsHash: Hash,
    lastBlockHash: Hash,
    data: nat)

  /** One entry of a commit; `genuine` says that the signature verifies for that validator. */
  datatype CommitSig = CommitSig(validator: Address, forBlock: bool, genuine: bool)

  datatype Commit = Commit(height: nat, blockHash: Hash, sigs: seq<CommitSig>)

  /** `priorities` is the hash of the proposer priorities, which no header contains. */
  datatype LightBlock = LightBlock(header: Header, commit: Commit, vals: ValidatorSet, priorities: Hash)

  /** Hash functions and the basic well-formedness of headers. */
  datatype Env = Env(hash: Header -> Hash, valsHash: ValidatorSet -> Hash, wellFormed: Header -> bool)

  datatype Fraction = Fraction(num: nat, den: nat)

  datatype Config = Config(trustingPeriod: int, maxClockDrift: int, trustLevel: Fraction)

  /** The outcome of a verification. */
  datatype Outcome =
    | Ok
    | OldHeaderExpired
    | InvalidHeader
    | NewValSetCantBeTrusted
    | OtherError

  datatype CommitCheck = Enough | NotEnough | Malformed

  /** Trust levels are within [1/3, 1]. */
  predicate ValidTrustLevel(t: Fraction) {
    t.num * 3 >= t.den && t.num <= t.den && t.den != 0
  }

  /**
    Goes through the signatures until the tallied power exceeds what is needed.
    `strict` stands for lookup by index, where every signer must be a member.
  */
  function Tally(power: map<Address, nat>, sigs: seq<CommitSig>, needed: nat, tallied: nat, seen: set<Address>,
                 strict: bool): CommitCheck
    decreases |sigs|
  {
    if tallied > needed then Enough
    else if sigs == [] then NotEnough
    else if !sigs[0].forBlock then Tally(power, sigs[1..], needed, tallied, seen, strict)
    else if sigs[0].validator !in power then
      if strict then Malformed else Tally(power, sigs[1..], needed, tallied, seen, strict)
    else if sigs[0].validator in seen || !sigs[0].genuine then Malformed
    else Tally(power, sigs[1..], needed, tallied + power[sigs[0].validator], seen + {sigs[0].validator}, strict)
  }

  function VerifyCommitLight(vals: ValidatorSet, height: nat, blockHash: Hash, commit: Commit): CommitCheck {
    if commit.height != height || commit.blockHash != blockHash then Malformed
    else Tally(vals.power, commit.sigs, vals.total * 2 / 3, 0, {}, true)
  }

  function VerifyCommitLightTrusting(vals: ValidatorSet, commit: Commit, level: Fraction): CommitCheck {
    if level.den == 0 then Malformed
    else Tally(vals.power, commit.sigs, vals.total * level.num / level.den, 0, {}, false)
  }

  predicate HeaderExpired(h: Header, trustingPeriod: int, now: int) {
    !(h.time + trustingPeriod > now)
  }

  /** The untrusted header is well formed, newer than the trusted one, and fits its validators and commit. */
  predicate NewHeaderAndValsOk(env: Env, cfg: Config, trusted: Header, untrusted: LightBlock, now: int) {
    && env.wellFormed(untrusted.header)
    && untrusted.header.chainID == trusted.chainID
    && untrusted.commit.height == untrusted.header.height
    && untrusted.commit.blockHash == env.hash(untrusted.header)
    && untrusted.header.height > trusted.height
    && untrusted.header.time > trusted.time
    && untrusted.header.time < now + cfg.maxClockDrift
    && untrusted.header.validatorsHash == env.valsHash(untrusted.vals)
  }

  function VerifyNonAdjacent(env: Env, cfg: Config, trusted: LightBlock, untrusted: LightBlock, now: int): Outcome {
    if untrusted.header.height == trusted.header.height + 1 then OtherError
    else if HeaderExpired(trusted.header, cfg.trustingPeriod, now) then OldHeaderExpired
    else if !NewHeaderAndValsOk(env, cfg, trusted.header, untrusted, now) then InvalidHeader
    else
      match VerifyCommitLightTrusting(trusted.vals, untrusted.commit, cfg.trustLevel)
      case NotEnough => NewValSetCantBeTrusted
      case Malformed => OtherError
      case Enough =>
        if VerifyCommitLight(untrusted.vals, untrusted.header.height, untrusted.commit.blockHash,
          untrusted.commit) != Enough
        then InvalidHeader else Ok
  }

  function VerifyAdjacent(env: Env, cfg: Config, trusted: Header, untrusted: LightBlock, now: int): Outcome {
    if untrusted.header.height != trusted.height + 1 then OtherError
    else if HeaderExpired(trusted, cfg.trustingPeriod, now) then OldHeaderExpired
    else if !NewHeaderAndValsOk(env, cfg, trusted, untrusted, now) then InvalidHeader
    else if untrusted.header.validatorsHash != trusted.nextValidatorsHash then OtherError
    else if VerifyCommitLight(untrusted.vals, untrusted.header.height, untrusted.commit.blockHash,
      untrusted.commit) != Enough
    then InvalidHeader
    else Ok
  }

  function Verify(env: Env, cfg: Config, trusted: LightBlock, untrusted: LightBlock, now: int): (r: Outcome) {
    if untrusted.header.height != trusted.header.height + 1 then VerifyNonAdjacent(env, cfg, trusted, untrusted, now)
    else VerifyAdjacent(env, cfg, trusted.header, untrusted, now)
  }

  /** Success of VerifyBackwards: an older header that the newer one points at. */
  predicate VerifyBackwards(env: Env, untrusted: Header, trusted: Header) {
    && env.wellFormed(untrusted)
    && untrusted.chainID == trusted.chainID
    && untrusted.time < trusted.time
    && env.hash(untrusted) == trusted.lastBlockHash
  }

  //---------------------------------------------------------------------------
  // What verification establishes

  /** The validators with a genuine signature for the block. */
  ghost function GenuineSigners(sigs: seq<CommitSig>): set<Address> {
    set s: CommitSig | s in sigs && s.forBlock && s.genuine :: s.validator
  }

  /** A commit passes only if genuine signers hold more than the needed power. */
  lemma {:induction false} TallyEnough(power: map<Address, nat>, sigs: seq<CommitSig>, needed: nat, tallied: nat,
                                       seen: set<Address>, strict: bool, signers: set<Address>)
    requires Tally(power, sigs, needed, tallied, seen, strict) == Enough
    requires seen <= signers && GenuineSigners(sigs) <= signers && tallied == Sum(power, seen)
    ensures Sum(power, signers) > needed
    decreases |sigs|
  {
    if tallied > needed {
      SumMonotone(power, seen, signers);
    } else {
      assert forall s :: s in sigs[1..] ==> s in sigs;
      assert GenuineSigners(sigs[1..]) <= GenuineSigners(sigs);
      var v := sigs[0].validator;
      if sigs[0].forBlock && v in power {
        SumAdd(power, seen, v);
        assert v in GenuineSigners(sigs);
        TallyEnough(power, sigs[1..], needed, tallied + power[v], seen + {v}, strict, signers);
      } else {
        TallyEnough(power, sigs[1..], needed, tallied, seen, strict, signers);
      }
    }
  }

  lemma CommitHasPower(power: map<Address, nat>, sigs: seq<CommitSig>, needed: nat, strict: bool)
    requires Tally(power, sigs, needed, 0, {}, strict) == Enough
    ensures Sum(power, GenuineSigners(sigs)) > needed
  {
    TallyEnough(power, sigs, needed, 0, {}, strict, GenuineSigners(sigs));
  }

  /** Each signature for the block is genuine, from a member of its validators, and no validator has two. */
  ghost predicate CleanCommit(b: LightBlock) {
    CleanSigs(b.commit.sigs) && SignersWithin(b.commit.sigs, b.vals)
  }

  ghost predicate CleanSigs(sigs: seq<CommitSig>) {
    && (forall i :: 0 <= i < |sigs| && sigs[i].forBlock ==> sigs[i].genuine)
    && (forall i, j :: 0 <= i < j < |sigs| && sigs[i].forBlock && sigs[j].forBlock ==>
          sigs[i].validator != sigs[j].validator)
  }

  ghost predicate SignersWithin(sigs: seq<CommitSig>, vals: ValidatorSet) {
    forall i :: 0 <= i < |sigs| && sigs[i].forBlock ==> sigs[i].validator in vals.power
  }

  /** Clean signatures pass if and only if those who signed hold more than the needed power; none is malformed. */
  lemma {:induction false} TallyComplete(power: map<Address, nat>, sigs: seq<CommitSig>, needed: nat, tallied: nat,
                                         seen: set<Address>, strict: bool)
    requires CleanSigs(sigs) && seen !! GenuineSigners(sigs) && tallied == Sum(power, seen)
    requires strict ==> forall i :: 0 <= i < |sigs| && sigs[i].forBlock ==> sigs[i].validator in power
    ensures Tally(power, sigs, needed, tallied, seen, strict) ==
      if Sum(power, seen + GenuineSigners(sigs)) > needed then Enough else NotEnough
    decreases |sigs|
  {
    if tallied > needed {
      SumMonotone(power, seen, seen + GenuineSigners(sigs));
    } else if sigs == [] {
      assert seen + GenuineSigners(sigs) == seen;
    } else {
      var v, rest := sigs[0].validator, sigs[1..];
      assert forall i :: 0 <= i < |rest| ==> rest[i] == sigs[i + 1];
      SignersFirst(sigs);
      if !sigs[0].forBlock {
        assert GenuineSigners(sigs) == GenuineSigners(rest);
        TallyComplete(power, rest, needed, tallied, seen, strict);
      } else {
        assert v in GenuineSigners(sigs) && v !in GenuineSigners(rest);
        assert seen + GenuineSigners(sigs) == seen + {v} + GenuineSigners(rest);
        SumAdd(power, seen, v);
        if v in power {
          TallyComplete(power, rest, needed, tallied + power[v], seen + {v}, strict);
        } else {
          TallyComplete(power, rest, needed, tallied, seen, strict);
          SumOutsider(power, seen + GenuineSigners(rest), v);
          assert seen + {v} + GenuineSigners(rest) == seen + GenuineSigners(rest) + {v};
        }
      }
    }
  }

  lemma SignersFirst(sigs: seq<CommitSig>)
    requires sigs != []
    ensures GenuineSigners(sigs) == GenuineSigners(sigs[1..]) +
      if sigs[0].forBlock && sigs[0].genuine then {sigs[0].validator} else {}
  {
    forall s | s in sigs ensures s == sigs[0] || s in sigs[1..] {
    }
  }

  lemma SumOutsider(power: map<Address, nat>, s: set<Address>, v: Address)
    requires v !in s && v !in power
    ensures Sum(power, s + {v}) == Sum(power, s)
  {
    SumAdd(power, s, v);
  }

  /** Those who signed hold more than a fraction of the power. */
  ghost predicate SignedAbove(vals: ValidatorSet, sigs: seq<CommitSig>, num: nat, den: nat) {
    Sum(vals.power, GenuineSigners(sigs)) * den > vals.total * num
  }

  lemma AboveIsNeeded(power: nat, total: nat, num: nat, den: nat)
    requires den > 0
    ensures power > total * num / den <==> power * den > total * num
  {
    var q := total * num / den;
    assert q * den <= total * num < (q + 1) * den;
    if power > q {
      assert power * den >= (q + 1) * den;
    } else {
      assert power * den <= q * den;
    }
  }

  /** A header of the same chain, well formed, later, not too far ahead of the clock, that fits what comes with it. */
  ghost predicate Follows(env: Env, cfg: Config, trusted: Header, b: LightBlock, now: int) {
    && env.wellFormed(b.header) && b.header.chainID == trusted.chainID
    && trusted.height < b.header.height && trusted.time < b.header.time < now + cfg.maxClockDrift
    && b.commit.height == b.header.height && b.commit.blockHash == env.hash(b.header)
    && env.valsHash(b.vals) == b.header.validatorsHash
  }

  /**
    What a verified header has: it follows a header whose trusting period is not over; more than two thirds of its own
    validators have signed it; and it has the validators announced, or is signed by more than the trust level of the
    trusted ones.
  */
  lemma VerifiedMeans(env: Env, cfg: Config, trusted: LightBlock, b: LightBlock, now: int)
    requires ValidTrustLevel(cfg.trustLevel) && Verify(env, cfg, trusted, b, now) == Ok
    ensures trusted.header.time + cfg.trustingPeriod > now && Follows(env, cfg, trusted.header, b, now)
    ensures SignedAbove(b.vals, b.commit.sigs, 2, 3)
    ensures if b.header.height == trusted.header.height + 1
            then b.header.validatorsHash == trusted.header.nextValidatorsHash
            else SignedAbove(trusted.vals, b.commit.sigs, cfg.trustLevel.num, cfg.trustLevel.den)
  {
    hide Tally, Sum;
    var sigs, level := b.commit.sigs, cfg.trustLevel;
    CommitHasPower(b.vals.power, sigs, b.vals.total * 2 / 3, true);
    AboveIsNeeded(Sum(b.vals.power, GenuineSigners(sigs)), b.vals.total, 2, 3);
    if b.header.height != trusted.header.height + 1 {
      CommitHasPower(trusted.vals.power, sigs, trusted.vals.total * level.num / level.den, false);
      AboveIsNeeded(Sum(trusted.vals.power, GenuineSigners(sigs)), trusted.vals.total, level.num, level.den);
    }
  }

  /** And for a clean commit, exactly when each outcome comes. */
  lemma VerifiesExactly(env: Env, cfg: Config, trusted: LightBlock, b: LightBlock, now: int)
    requires ValidTrustLevel(cfg.trustLevel) && CleanCommit(b)
    ensures var r, adjacent := Verify(env, cfg, trusted, b, now), b.header.height == trusted.header.height + 1;
      var live := trusted.header.time + cfg.trustingPeriod > now;
      var follows := live && Follows(env, cfg, trusted.header, b, now);
      var announced := b.header.validatorsHash == trusted.header.nextValidatorsHash;
      var trustedSigned := SignedAbove(trusted.vals, b.commit.sigs, cfg.trustLevel.num, cfg.trustLevel.den);
      && (r == OldHeaderExpired <==> !live)
      && (r == Ok <==>
           follows && SignedAbove(b.vals, b.commit.sigs, 2, 3) && if adjacent then announced else trustedSigned)
      && (r == NewValSetCantBeTrusted <==> follows && !adjacent && !trustedSigned)
      && (r == OtherError <==> follows && adjacent && !announced)
  {
    hide Tally, Sum;
    var sigs, level := b.commit.sigs, cfg.trustLevel;
    NoneSeen(b.vals.power, sigs);
    NoneSeen(trusted.vals.power, sigs);
    TallyComplete(b.vals.power, sigs, b.vals.total * 2 / 3, 0, {}, true);
    TallyComplete(trusted.vals.power, sigs, trusted.vals.total * level.num / level.den, 0, {}, false);
    AboveIsNeeded(Sum(b.vals.power, GenuineSigners(sigs)), b.vals.total, 2, 3);
    AboveIsNeeded(Sum(trusted.vals.power, GenuineSigners(sigs)), trusted.vals.total, level.num, level.den);
  }

  lemma NoneSeen(power: map<Address, nat>, sigs: seq<CommitSig>)
    ensures Sum(power, {}) == 0 && {} + GenuineSigners(sigs) == GenuineSigners(sigs)
  {
  }

  /** A verified header is later in height and in time; failure for lack of trust needs a gap. */
  lemma VerifyOrders(env: Env, cfg: Config, trusted: LightBlock, untrusted: LightBlock, now: int)
    ensures Verify(env, cfg, trusted, untrusted, now) == Ok ==>
      trusted.header.height < untrusted.header.height && trusted.header.time < untrusted.header.time
    ensures Verify(env, cfg, trusted, untrusted, now) == NewValSetCantBeTrusted ==>
      trusted.header.height + 1 < untrusted.header.height
  {
  }

  //---------------------------------------------------------------------------
  // Soundness

  /** The canonical chain: the header and the validators of each height. */
  datatype Chain = Chain(header: nat -> Header, vals: nat -> ValidatorSet)

  ghost predicate Collisionless(env: Env) {
    && (forall a, b :: env.hash(a) == env.hash(b) ==> a == b)
    && (forall a, b :: env.valsHash(a) == env.valsHash(b) ==> a == b)
  }

  ghost predicate ChainLinked(env: Env, c: Chain) {
    forall h: nat ::
      && c.header(h).height == h
      && c.header(h).validatorsHash == env.valsHash(c.vals(h))
      && c.header(h).nextValidatorsHash == env.valsHash(c.vals(h + 1))
      && c.vals(h).Valid()
  }

  /** While a canonical header has not expired, its validators and the next ones are less than a third faulty. */
  ghost predicate TrustAssumption(env: Env, cfg: Config, c: Chain, correct: set<Address>, now: int) {
    forall h: nat :: !HeaderExpired(c.header(h), cfg.trustingPeriod, now) ==>
      FaultsBelowThird(c.vals(h), correct) && FaultsBelowThird(c.vals(h + 1), correct)
  }

  /** Correct validators sign only the canonical header of a height. */
  ghost predicate CorrectSignatures(env: Env, c: Chain, correct: set<Address>, b: LightBlock) {
    forall a :: a in GenuineSigners(b.commit.sigs) && a in correct ==>
      b.commit.blockHash == env.hash(c.header(b.commit.height))
  }

  ghost predicate Canonical(c: Chain, b: LightBlock) {
    b.header == c.header(b.header.height) && b.vals == c.vals(b.header.height)
  }

  /** A correct validator that signed the commit makes the header canonical. */
  lemma SignedByCorrect(env: Env, c: Chain, correct: set<Address>, vals: ValidatorSet, b: LightBlock)
    requires Collisionless(env) && ChainLinked(env, c) && CorrectSignatures(env, c, correct, b)
    requires Sum(vals.power, GenuineSigners(b.commit.sigs)) > Sum(vals.power, vals.power.Keys - correct)
    requires b.commit.height == b.header.height && b.commit.blockHash == env.hash(b.header)
    requires b.header.validatorsHash == env.valsHash(b.vals)
    ensures Canonical(c, b)
  {
    OutweighsFaults(vals, GenuineSigners(b.commit.sigs), correct);
    var h := b.header.height;
    assert c.header(h).validatorsHash == env.valsHash(c.vals(h));
  }

  /** At least a third of the power, and one more, outweighs the faulty. */
  lemma TrustLevelOutweighs(total: nat, level: Fraction, faulty: nat, signed: nat)
    requires ValidTrustLevel(level) && 3 * faulty < total && signed > total * level.num / level.den
    ensures signed > faulty
  {
    var needed := total * level.num / level.den;
    assert total * level.num * 3 >= total * level.den;
    assert total * level.num < (needed + 1) * level.den;
    assert 3 * (needed + 1) < total ==> 3 * (needed + 1) * level.den < total * level.den;
    assert 3 * (needed + 1) >= total;
  }

  lemma VerifyAdjacentSound(env: Env, cfg: Config, c: Chain, correct: set<Address>, trusted: Header,
                            untrusted: LightBlock, now: int)
    requires Collisionless(env) && ChainLinked(env, c)
    requires TrustAssumption(env, cfg, c, correct, now) && CorrectSignatures(env, c, correct, untrusted)
    requires trusted == c.header(trusted.height)
    requires VerifyAdjacent(env, cfg, trusted, untrusted, now) == Ok
    ensures Canonical(c, untrusted)
  {
    hide Tally, CorrectSignatures, Canonical;
    var x := trusted.height;
    assert c.header(x).nextValidatorsHash == env.valsHash(c.vals(x + 1));
    var vals := c.vals(x + 1);
    assert untrusted.vals == vals;
    CommitHasPower(vals.power, untrusted.commit.sigs, vals.total * 2 / 3, true);
    SignedByCorrect(env, c, correct, vals, untrusted);
  }

  lemma VerifyNonAdjacentSound(env: Env, cfg: Config, c: Chain, correct: set<Address>, trusted: LightBlock,
                               untrusted: LightBlock, now: int)
    requires Collisionless(env) && ChainLinked(env, c) && ValidTrustLevel(cfg.trustLevel)
    requires TrustAssumption(env, cfg, c, correct, now) && CorrectSignatures(env, c, correct, untrusted)
    requires Canonical(c, trusted)
    requires VerifyNonAdjacent(env, cfg, trusted, untrusted, now) == Ok
    ensures Canonical(c, untrusted)
  {
    hide Tally, CorrectSignatures;
    var vals, signers := c.vals(trusted.header.height), GenuineSigners(untrusted.commit.sigs);
    CommitHasPower(vals.power, untrusted.commit.sigs, vals.total * cfg.trustLevel.num / cfg.trustLevel.den, false);
    TrustLevelOutweighs(vals.total, cfg.trustLevel, Sum(vals.power, vals.power.Keys - correct),
      Sum(vals.power, signers));
    SignedByCorrect(env, c, correct, vals, untrusted);
  }

  /** One step of verification from a canonical header reaches only canonical headers. */
  lemma VerifySound(env: Env, cfg: Config, c: Chain, correct: set<Address>, trusted: LightBlock, untrusted: LightBlock,
                    now: int)
    requires Collisionless(env) && ChainLinked(env, c) && ValidTrustLevel(cfg.trustLevel)
    requires TrustAssumption(env, cfg, c, correct, now) && CorrectSignatures(env, c, correct, untrusted)
    requires Canonical(c, trusted)
    requires Verify(env, cfg, trusted, untrusted, now) == Ok
    ensures Canonical(c, untrusted)
  {
    hide VerifyAdjacent, VerifyNonAdjacent, CorrectSignatures, TrustAssumption, ChainLinked, Collisionless;
    hide ValidTrustLevel;
    if untrusted.header.height == trusted.header.height + 1 {
      VerifyAdjacentSound(env, cfg, c, correct, trusted.header, untrusted, now);
    } else {
      VerifyNonAdjacentSound(env, cfg, c, correct, trusted, untrusted, now);
    }
  }
}
