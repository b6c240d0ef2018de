/** The file-backed signer and its protection against double signing: privval/file.go. */
module FileSigner {
  import opened Power
  import VoteSets

  type Bytes = seq<nat>

  type BlockID = VoteSets.BlockID

  datatype Kind = Prevote | Precommit | UnknownKind

  datatype Vote = Vote(
    kind: Kind, height: int, round: int, blockID: BlockID, timestamp: int,
    extension: Bytes, signature: Bytes, extensionSignature: Bytes)

  datatype Proposal = Proposal(height: int, round: int, polRound: int, blockID: BlockID, timestamp: int,
                               signature: Bytes)

  /** What is encoded and signed. */
  datatype Canonical =
    | CanonicalVote(kind: Kind, height: int, round: int, blockID: BlockID, timestamp: int, chainID: Bytes)
    | CanonicalProposal(height: int, round: int, polRound: int, blockID: BlockID, timestamp: int, chainID: Bytes)
    | CanonicalExtension(extension: Bytes, height: int, round: int, chainID: Bytes)

  /** The encoding and the private key. */
  datatype Scheme = Scheme(encode: Canonical -> Bytes, decode: Bytes -> Option<Canonical>, sign: Bytes -> Option<Bytes>)

  ghost predicate Lawful(s: Scheme) {
    && (forall c :: s.encode(c) != [] && s.decode(s.encode(c)) == Some(c))
    && (forall b :: s.sign(b).Some? ==> s.sign(b).value != [])
  }

  ghost function VoteAt(v: Vote): HRS
    requires v.kind != UnknownKind
  {
    HRS(v.height, v.round, VoteToStep(v.kind).value)
  }

  ghost function ProposalAt(p: Proposal): HRS {
    HRS(p.height, p.round, STEP_PROPOSE)
  }

  function CanonicalOf(chainID: Bytes, v: Vote): Canonical {
    CanonicalVote(v.kind, v.height, v.round, v.blockID, v.timestamp, chainID)
  }

  function CanonicalProposalOf(chainID: Bytes, p: Proposal): Canonical {
    CanonicalProposal(p.height, p.round, p.polRound, p.blockID, p.timestamp, chainID)
  }

  /** Only precommits for a block carry a vote extension. */
  predicate IsExtended(v: Vote) {
    v.kind == Precommit && v.blockID != VoteSets.NilBlock
  }

  function VoteSignBytes(s: Scheme, chainID: Bytes, v: Vote): Bytes {
    s.encode(CanonicalOf(chainID, v))
  }

  function ProposalSignBytes(s: Scheme, chainID: Bytes, p: Proposal): Bytes {
    s.encode(CanonicalProposalOf(chainID, p))
  }

  function ExtensionSignBytes(s: Scheme, chainID: Bytes, v: Vote): Bytes {
    s.encode(CanonicalExtension(v.extension, v.height, v.round, chainID))
  }

  //---------------------------------------------------------------------------
  // Height, round and step

  const STEP_NONE := 0
  const STEP_PROPOSE := 1
  const STEP_PREVOTE := 2
  const STEP_PRECOMMIT := 3

  datatype HRS = HRS(height: int, round: int, step: int)

  predicate Before(a: HRS, b: HRS) {
    || a.height < b.height
    || (a.height == b.height && (a.round < b.round || (a.round == b.round && a.step < b.step)))
  }

  function VoteToStep(kind: Kind): Option<int> {
    match kind
    case Prevote => Some(STEP_PREVOTE)
    case Precommit => Some(STEP_PRECOMMIT)
    case UnknownKind => None
  }

  /** The last signature: in memory, and in the file. Empty bytes are absent ones. */
  datatype LastSignState = LastSignState(height: int, round: int, step: int, signature: Bytes, signBytes: Bytes) {
    function At(): HRS {
      HRS(height, round, step)
    }
  }

  const EMPTY_STATE := LastSignState(0, 0, STEP_NONE, [], [])

  datatype Check = NewHRS | SameHRS | Regression | NoSignBytes | NoSignature

  function CheckHRS(lss: LastSignState, height: int, round: int, step: int): (r: Check)
    ensures r == Regression <==> Before(HRS(height, round, step), lss.At())
    ensures r == NewHRS <==> Before(lss.At(), HRS(height, round, step))
    ensures r == SameHRS <==> lss.At() == HRS(height, round, step) && lss.signBytes != [] && lss.signature != []
  {
    if lss.height > height then Regression
    else if lss.height == height then
      if lss.round > round then Regression
      else if lss.round == round then
        if lss.step > step then Regression
        else if lss.step == step then
          if lss.signBytes != [] then
            if lss.signature == [] then NoSignature else SameHRS
          else NoSignBytes
        else NewHRS
      else NewHRS
    else NewHRS
  }

  datatype Comparison = OnlyTimestamp(timestamp: int) | Different | CannotDecode

  function AtTime(c: Canonical, t: int): Canonical {
    match c
    case CanonicalVote(kind, h, r, b, _, id) => CanonicalVote(kind, h, r, b, t, id)
    case CanonicalProposal(h, r, pol, b, _, id) => CanonicalProposal(h, r, pol, b, t, id)
    case CanonicalExtension(_, _, _, _) => c
  }

  function TimeOf(c: Canonical): int {
    if c.CanonicalVote? || c.CanonicalProposal? then c.timestamp else 0
  }

  /** The timestamp of the last message, if the two messages are otherwise the same. */
  function OnlyDifferByTimestamp(s: Scheme, last: Bytes, new_: Bytes, votes: bool): Comparison {
    var a, b := s.decode(last), s.decode(new_);
    if a == None || b == None then CannotDecode
    else if votes && !(a.value.CanonicalVote? && b.value.CanonicalVote?) then CannotDecode
    else if !votes && !(a.value.CanonicalProposal? && b.value.CanonicalProposal?) then CannotDecode
    else if AtTime(a.value, 0) == AtTime(b.value, 0) then OnlyTimestamp(TimeOf(a.value))
    else Different
  }

  //---------------------------------------------------------------------------
  // What has been released

  /** A signature that left the signer, for a height, round and step. */
  datatype Release = Release(at: HRS, signBytes: Bytes, signature: Bytes)

  /** Whatever is signed for one height, round and step is the same. */
  ghost predicate NoDoubleSigning(released: seq<Release>) {
    forall i, j :: 0 <= i < |released| && 0 <= j < |released| && released[i].at == released[j].at ==>
      released[i] == released[j]
  }

  /** Heights, rounds and steps never go back. */
  ghost predicate NoRegression(released: seq<Release>) {
    forall i, j :: 0 <= i < j < |released| ==> !Before(released[j].at, released[i].at)
  }

  /** The file covers all that was released: it is at the same place with the same bytes, or further on. */
  ghost predicate Covers(lss: LastSignState, released: seq<Release>) {
    forall i :: 0 <= i < |released| ==>
      Before(released[i].at, lss.At()) || released[i] == Release(lss.At(), lss.signBytes, lss.signature)
  }

  /** The height, round and step that a message is signed for. */
  ghost predicate SignedFor(c: Canonical, at: HRS) {
    match c
    case CanonicalVote(kind, h, r, _, _, _) => VoteToStep(kind) == Some(at.step) && h == at.height && r == at.round
    case CanonicalProposal(h, r, _, _, _, _) => at == HRS(h, r, STEP_PROPOSE)
    case CanonicalExtension(_, _, _, _) => false
  }

  /** The file holds a signed message for its height, round and step, or nothing yet. */
  ghost predicate Stored(s: Scheme, lss: LastSignState) {
    || lss == EMPTY_STATE
    || (lss.signature != [] && s.sign(lss.signBytes) == Some(lss.signature) &&
        exists c :: lss.signBytes == s.encode(c) && SignedFor(c, lss.At()))
  }

  /**
    A message for the stored height, round and step agrees with the stored one up to the time, or with no time at all.
  */
  lemma CompareWithStored(s: Scheme, lss: LastSignState, c: Canonical)
    requires Lawful(s) && Stored(s, lss) && SignedFor(c, lss.At())
    ensures CheckHRS(lss, lss.height, lss.round, lss.step) == SameHRS
    ensures match OnlyDifferByTimestamp(s, lss.signBytes, s.encode(c), c.CanonicalVote?) {
      case OnlyTimestamp(t) => s.encode(AtTime(c, t)) == lss.signBytes
      case Different => forall t :: s.encode(AtTime(c, t)) != lss.signBytes
      case CannotDecode => false
    }
  {
    var stored :| lss.signBytes == s.encode(stored) && SignedFor(stored, lss.At());
    assert s.decode(lss.signBytes) == Some(stored) && s.decode(s.encode(c)) == Some(c);
    assert AtTime(stored, TimeOf(stored)) == stored;
    assert AtTime(AtTime(c, 0), TimeOf(stored)) == AtTime(c, TimeOf(stored));
    assert AtTime(AtTime(stored, 0), TimeOf(stored)) == stored;
    forall t | s.encode(AtTime(c, t)) == lss.signBytes ensures AtTime(stored, 0) == AtTime(c, 0) {
      assert s.decode(s.encode(AtTime(c, t))) == Some(AtTime(c, t));
      assert AtTime(AtTime(c, t), 0) == AtTime(c, 0);
    }
  }

  /** Releasing what the file holds keeps the record clean. */
  lemma ReleaseStored(lss: LastSignState, released: seq<Release>)
    requires NoDoubleSigning(released) && NoRegression(released) && Covers(lss, released)
    ensures var more := released + [Release(lss.At(), lss.signBytes, lss.signature)];
      NoDoubleSigning(more) && NoRegression(more) && Covers(lss, more)
  {
  }

  /** Moving the file forward keeps all releases covered. */
  lemma MoveForward(lss: LastSignState, next: LastSignState, released: seq<Release>)
    requires Covers(lss, released) && Before(lss.At(), next.At())
    ensures Covers(next, released)
  {
  }

  //---------------------------------------------------------------------------
  // The signer

  /** How a request ends: the process may die before or after the file is written. */
  datatype Fate = Completes | DiesBeforeSave | DiesAfterSave

  datatype Result<T> =
    | Signed(message: T)
    | Regressed | Conflicting | UnexpectedExtension | SigningFailed
    | Died | Panicked

  class FilePV {
    const scheme: Scheme
    var lss: LastSignState             // in memory
    var file: LastSignState            // on disk
    ghost var released: seq<Release>

    /** The record is clean and covered by the file, which survives any crash. */
    ghost predicate Safe()
      reads this
    {
      && Lawful(scheme) && Stored(scheme, file)
      && NoDoubleSigning(released) && NoRegression(released) && Covers(file, released)
    }

    /** A live signer remembers what the file says. */
    ghost predicate Live()
      reads this
    {
      Safe() && lss == file
    }

    constructor (scheme: Scheme)
      requires Lawful(scheme)
      ensures Live() && released == [] && this.scheme == scheme
    {
      this.scheme := scheme;
      lss := EMPTY_STATE;
      file := EMPTY_STATE;
      released := [];
    }

    /** A new process loads the state from the file. */
    method Reload()
      requires Safe()
      modifies this`lss
      ensures Live()
    {
      lss := file;
    }

    method SaveSigned(height: int, round: int, step: int, signBytes: Bytes, signature: Bytes, fate: Fate)
      modifies this`lss, this`file
      ensures lss == LastSignState(height, round, step, signature, signBytes)
      ensures file == if fate == DiesBeforeSave then old(file) else lss
    {
      lss := LastSignState(height, round, step, signature, signBytes);
      if fate != DiesBeforeSave {
        file := lss;
      }
    }

    /** Some timestamp makes this the message whose signature is stored. */
    ghost predicate SameUpToTime(state: LastSignState, c: Canonical) {
      exists t :: scheme.encode(AtTime(c, t)) == state.signBytes
    }

    /** The extension cannot be signed, or should not be there. */
    ghost predicate ExtensionFails(chainID: Bytes, v: Vote) {
      if IsExtended(v) then scheme.sign(ExtensionSignBytes(scheme, chainID, v)) == None else v.extension != []
    }

    /**
      Signs a vote that is later than the last one signed, or gives the last signature
      again if only the time has changed. The file is written before the signature is released.
    */
    method SignVote(chainID: Bytes, vote: Vote, fate: Fate) returns (r: Result<Vote>)
      requires Live()
      modifies this
      ensures Safe() && (r != Died ==> Live())
      ensures file == old(file) || Before(old(file).At(), file.At())
      ensures r == Panicked <==> vote.kind == UnknownKind
      ensures r == Regressed <==> vote.kind != UnknownKind && Before(VoteAt(vote), old(file).At())
      ensures r == Conflicting <==>
        && vote.kind != UnknownKind && !ExtensionFails(chainID, vote)
        && VoteAt(vote) == old(file).At() && !SameUpToTime(old(file), CanonicalOf(chainID, vote))
      ensures r.Signed? <==>
        && vote.kind != UnknownKind && !ExtensionFails(chainID, vote)
        && (|| (VoteAt(vote) == old(file).At() && SameUpToTime(old(file), CanonicalOf(chainID, vote)))
            || (Before(old(file).At(), VoteAt(vote)) && fate == Completes &&
              scheme.sign(VoteSignBytes(scheme, chainID, vote)).Some?))
      ensures r == Died <==>
        && vote.kind != UnknownKind && !ExtensionFails(chainID, vote) && Before(old(file).At(), VoteAt(vote))
        && fate != Completes && scheme.sign(VoteSignBytes(scheme, chainID, vote)).Some?
      ensures !r.Signed? && !(r == Died && fate == DiesAfterSave) ==> file == old(file)
      ensures r == Died && fate == DiesAfterSave ==>
        && file.At() == VoteAt(vote) && file.signBytes == VoteSignBytes(scheme, chainID, vote)
        && scheme.sign(file.signBytes) == Some(file.signature)
      ensures r.Signed? ==> VoteAt(vote) == file.At()
      ensures r.Signed? && Before(old(file).At(), file.At()) ==> r.message.timestamp == vote.timestamp
      ensures r.Signed? ==>
        && VoteSignBytes(scheme, chainID, r.message) == file.signBytes
        && scheme.sign(file.signBytes) == Some(r.message.signature)
        && r.message.signature == file.signature
        && r.message == vote.(timestamp := r.message.timestamp, signature := r.message.signature,
                              extensionSignature := r.message.extensionSignature)
        && (if IsExtended(vote) then scheme.sign(ExtensionSignBytes(scheme, chainID, vote)) ==
          Some(r.message.extensionSignature)
            else r.message.extensionSignature == [])
      ensures released == if r.Signed? then old(released) + [Release(file.At(), file.signBytes, file.signature)]
        else old(released)
    {
      hide Covers, NoDoubleSigning, NoRegression;
      if vote.kind == UnknownKind {
        return Panicked;
      }
      var height, round, step := vote.height, vote.round, VoteToStep(vote.kind).value;
      ghost var c := CanonicalOf(chainID, vote);
      var check := CheckHRS(lss, height, round, step);
      if check == Regression {
        return Regressed;
      }
      ghost var same := lss.At() == VoteAt(vote);
      if same {
        CompareWithStored(scheme, file, c);
      }
      if check == NoSignBytes {
        return SigningFailed;
      }
      if check == NoSignature {
        return Panicked;
      }
      var signBytes := VoteSignBytes(scheme, chainID, vote);
      var extensionSignature: Bytes := [];
      if IsExtended(vote) {
        var signed := scheme.sign(ExtensionSignBytes(scheme, chainID, vote));
        if signed == None {
          return SigningFailed;
        }
        extensionSignature := signed.value;
      } else if vote.extension != [] {
        return UnexpectedExtension;
      }
      if check == SameHRS {
        var timestamp := vote.timestamp;
        if signBytes != lss.signBytes {
          var difference := OnlyDifferByTimestamp(scheme, lss.signBytes, signBytes, true);
          if difference == CannotDecode {
            return Panicked;
          }
          if difference == Different {
            return Conflicting;
          }
          timestamp := difference.timestamp;
        }
        assert scheme.encode(AtTime(c, timestamp)) == file.signBytes;
        ReleaseStored(file, released);
        released := released + [Release(file.At(), file.signBytes, file.signature)];
        return Signed(vote.(timestamp := timestamp, signature := lss.signature,
          extensionSignature := extensionSignature));
      }
      var signature := scheme.sign(signBytes);
      if signature == None {
        return SigningFailed;
      }
      ghost var before := file;
      SaveSigned(height, round, step, signBytes, signature.value, fate);
      assert SignedFor(c, lss.At()) && Stored(scheme, lss);
      MoveForward(before, lss, released);
      if fate != Completes {
        return Died;
      }
      assert scheme.encode(AtTime(c, vote.timestamp)) == file.signBytes;
      ReleaseStored(file, released);
      released := released + [Release(file.At(), file.signBytes, file.signature)];
      return Signed(vote.(signature := signature.value, extensionSignature := extensionSignature));
    }

    /** The same for proposals. */
    method SignProposal(chainID: Bytes, proposal: Proposal, fate: Fate) returns (r: Result<Proposal>)
      requires Live()
      modifies this
      ensures Safe() && (r != Died ==> Live())
      ensures file == old(file) || Before(old(file).At(), file.At())
      ensures r != Panicked && r != UnexpectedExtension
      ensures r == Regressed <==> Before(ProposalAt(proposal), old(file).At())
      ensures r == Conflicting <==>
        ProposalAt(proposal) == old(file).At() && !SameUpToTime(old(file), CanonicalProposalOf(chainID, proposal))
      ensures r.Signed? <==>
        || (ProposalAt(proposal) == old(file).At() && SameUpToTime(old(file), CanonicalProposalOf(chainID, proposal)))
        || (Before(old(file).At(), ProposalAt(proposal)) && fate == Completes
            && scheme.sign(ProposalSignBytes(scheme, chainID, proposal)).Some?)
      ensures r == Died <==>
        && Before(old(file).At(), ProposalAt(proposal)) && fate != Completes
        && scheme.sign(ProposalSignBytes(scheme, chainID, proposal)).Some?
      ensures !r.Signed? && !(r == Died && fate == DiesAfterSave) ==> file == old(file)
      ensures r == Died && fate == DiesAfterSave ==>
        && file.At() == ProposalAt(proposal) && file.signBytes == ProposalSignBytes(scheme, chainID, proposal)
        && scheme.sign(file.signBytes) == Some(file.signature)
      ensures r.Signed? ==> ProposalAt(proposal) == file.At()
      ensures r.Signed? && Before(old(file).At(), file.At()) ==> r.message.timestamp == proposal.timestamp
      ensures r.Signed? ==>
        && ProposalSignBytes(scheme, chainID, r.message) == file.signBytes
        && scheme.sign(file.signBytes) == Some(r.message.signature)
        && r.message.signature == file.signature
        && r.message == proposal.(timestamp := r.message.timestamp, signature := r.message.signature)
      ensures released == if r.Signed? then old(released) + [Release(file.At(), file.signBytes, file.signature)]
        else old(released)
    {
      hide Covers, NoDoubleSigning, NoRegression;
      var height, round, step := proposal.height, proposal.round, STEP_PROPOSE;
      ghost var c := CanonicalProposalOf(chainID, proposal);
      var check := CheckHRS(lss, height, round, step);
      if check == Regression {
        return Regressed;
      }
      if lss.At() == ProposalAt(proposal) {
        CompareWithStored(scheme, file, c);
      }
      if check == NoSignBytes {
        return SigningFailed;
      }
      if check == NoSignature {
        return Panicked;
      }
      var signBytes := ProposalSignBytes(scheme, chainID, proposal);
      if check == SameHRS {
        var timestamp := proposal.timestamp;
        if signBytes != lss.signBytes {
          var difference := OnlyDifferByTimestamp(scheme, lss.signBytes, signBytes, false);
          if difference == CannotDecode {
            return Panicked;
          }
          if difference == Different {
            return Conflicting;
          }
          timestamp := difference.timestamp;
        }
        assert scheme.encode(AtTime(c, timestamp)) == file.signBytes;
        ReleaseStored(file, released);
        released := released + [Release(file.At(), file.signBytes, file.signature)];
        return Signed(proposal.(timestamp := timestamp, signature := lss.signature));
      }
      var signature := scheme.sign(signBytes);
      if signature == None {
        return SigningFailed;
      }
      ghost var before := file;
      SaveSigned(height, round, step, signBytes, signature.value, fate);
      assert SignedFor(c, lss.At()) && Stored(scheme, lss);
      MoveForward(before, lss, released);
      if fate != Completes {
        return Died;
      }
      ReleaseStored(file, released);
      released := released + [Release(file.At(), file.signBytes, file.signature)];
      return Signed(proposal.(signature := signature.value));
    }
  }

  //---------------------------------------------------------------------------
  // Whole runs

  datatype Request =
    | ForVote(chainID: Bytes, vote: Vote, fate: Fate)
    | ForProposal(chainID: Bytes, proposal: Proposal, fate: Fate)
    | Restart

  /** The file and all that has been released. */
  datatype Record = Record(file: LastSignState, released: seq<Release>)

  /** What is asked for: the message at any time, its height, round and step, and whether it can be asked for at all. */
  ghost predicate Answered(s: Scheme, a: Record, c: Canonical, at: HRS, fits: bool, fate: Fate, b: Record) {
    if !fits then b == a
    else if at == a.file.At() then
      if exists t :: s.encode(AtTime(c, t)) == a.file.signBytes
      then b == a.(released := a.released + [Release(at, a.file.signBytes, a.file.signature)]) else b == a
    else if Before(a.file.At(), at) && s.sign(s.encode(c)).Some? && fate != DiesBeforeSave then
      && b.file == LastSignState(at.height, at.round, at.step, s.sign(s.encode(c)).value, s.encode(c))
      && b.released == if fate == Completes then a.released + [Release(at, b.file.signBytes, b.file.signature)]
                       else a.released
    else b == a
  }

  ghost predicate Served(s: Scheme, a: Record, q: Request, b: Record) {
    match q
    case ForVote(chainID, v, fate) =>
      if v.kind == UnknownKind then b == a
      else
        var extensionFits := if v.kind == Precommit && v.blockID != VoteSets.NilBlock
                             then s.sign(ExtensionSignBytes(s, chainID, v)).Some? else v.extension == [];
        Answered(s, a, CanonicalOf(chainID, v), VoteAt(v), extensionFits, fate, b)
    case ForProposal(chainID, p, fate) =>
      Answered(s, a, CanonicalProposalOf(chainID, p), ProposalAt(p), true, fate, b)
    case Restart => b == a
  }

  /**
    Whatever is asked, and wherever the process dies: each request is answered exactly if it is later than the file, or
    is what the file holds but for the time, and no two different messages are signed for one height, round and step.
  */
  method Serve(pv: FilePV, requests: seq<Request>) returns (ghost trail: seq<Record>)
    requires pv.Live()
    modifies pv
    ensures pv.Live() && old(pv.released) <= pv.released
    ensures NoDoubleSigning(pv.released) && NoRegression(pv.released)
    ensures |trail| == |requests| + 1 && trail[0] == Record(old(pv.file), old(pv.released))
    ensures trail[|requests|] == Record(pv.file, pv.released)
    ensures forall i :: 0 <= i < |requests| ==> Served(pv.scheme, trail[i], requests[i], trail[i + 1])
  {
    hide NoDoubleSigning, NoRegression, Covers, Stored, Lawful, Served;
    trail := [Record(pv.file, pv.released)];
    for i := 0 to |requests|
      invariant pv.Live() && old(pv.released) <= pv.released
      invariant |trail| == i + 1 && trail[0] == Record(old(pv.file), old(pv.released))
      invariant trail[i] == Record(pv.file, pv.released)
      invariant forall j :: 0 <= j < i ==> Served(pv.scheme, trail[j], requests[j], trail[j + 1])
    {
      ServeOne(pv, requests[i]);
      trail := trail + [Record(pv.file, pv.released)];
      assert Served(pv.scheme, trail[i], requests[i], trail[i + 1]);
    }
  }

  /** One request; a process that dies is started again. */
  method ServeOne(pv: FilePV, q: Request)
    requires pv.Live()
    modifies pv
    ensures pv.Live() && old(pv.released) <= pv.released
    ensures Served(pv.scheme, Record(old(pv.file), old(pv.released)), q, Record(pv.file, pv.released))
  {
    hide NoDoubleSigning, NoRegression, Covers, Stored, Lawful;
    var died := false;
    match q {
      case ForVote(chainID, vote, fate) =>
        var r := pv.SignVote(chainID, vote, fate);
        died := r == Died;
      case ForProposal(chainID, proposal, fate) =>
        var r := pv.SignProposal(chainID, proposal, fate);
        died := r == Died;
      case Restart =>
        died := true;
    }
    if died {
      pv.Reload();
    }
  }

  //---------------------------------------------------------------------------
  // What is signed, and in which order

  /** Messages with the same sign-bytes say the same: nothing that is signed can be taken for anything else. */
  lemma SignBytesAgree(s: Scheme, a: Bytes, v: Vote, b: Bytes, w: Vote, p: Proposal, q: Proposal)
    requires Lawful(s)
    ensures VoteSignBytes(s, a, v) == VoteSignBytes(s, b, w) <==>
      && v.kind == w.kind && v.height == w.height && v.round == w.round
      && v.blockID == w.blockID && v.timestamp == w.timestamp && a == b
    ensures ProposalSignBytes(s, a, p) == ProposalSignBytes(s, b, q) <==>
      && p.height == q.height && p.round == q.round && p.polRound == q.polRound
      && p.blockID == q.blockID && p.timestamp == q.timestamp && a == b
    ensures ExtensionSignBytes(s, a, v) == ExtensionSignBytes(s, b, w) <==>
      v.extension == w.extension && v.height == w.height && v.round == w.round && a == b
    ensures VoteSignBytes(s, a, v) != ProposalSignBytes(s, b, p)
    ensures ExtensionSignBytes(s, a, v) != VoteSignBytes(s, b, w)
    ensures ExtensionSignBytes(s, a, v) != ProposalSignBytes(s, b, p)
  {
    Decodes(s, CanonicalOf(a, v));
    Decodes(s, CanonicalOf(b, w));
    Decodes(s, CanonicalProposalOf(a, p));
    Decodes(s, CanonicalProposalOf(b, p));
    Decodes(s, CanonicalProposalOf(b, q));
    Decodes(s, CanonicalExtension(v.extension, v.height, v.round, a));
    Decodes(s, CanonicalExtension(w.extension, w.height, w.round, b));
  }

  lemma Decodes(s: Scheme, c: Canonical)
    requires Lawful(s)
    ensures s.decode(s.encode(c)) == Some(c)
  {
  }

  /** The last signature is of an earlier height, or of an earlier round of this one. */
  predicate NotYetAt(lss: LastSignState, height: int, round: int) {
    lss.height < height || (lss.height == height && lss.round < round)
  }

  /** The key signs this vote and, exactly if it is a precommit for a block, its extension. */
  ghost predicate CanSign(s: Scheme, chainID: Bytes, v: Vote) {
    && s.sign(VoteSignBytes(s, chainID, v)).Some?
    && if v.kind == Precommit && v.blockID != VoteSets.NilBlock
       then s.sign(ExtensionSignBytes(s, chainID, v)).Some? else v.extension == []
  }

  /**
    In a round that is not yet signed for, the proposal, the prevote and the precommit are each signed when asked for
    in this order, and none of the earlier ones once a later one was.
  */
  method SignRound(pv: FilePV, chainID: Bytes, proposal: Proposal, prevote: Vote, precommit: Vote)
    returns (proposed: Result<Proposal>, prevoted: Result<Vote>, precommitted: Result<Vote>, late: Result<Proposal>,
             later: Result<Vote>, latest: Result<Proposal>)
    requires pv.Live() && prevote.kind == Prevote && precommit.kind == Precommit
    requires proposal.height == prevote.height == precommit.height && proposal.round == prevote.round == precommit.round
    requires NotYetAt(pv.file, proposal.height, proposal.round)
    requires pv.scheme.sign(ProposalSignBytes(pv.scheme, chainID, proposal)).Some?
    requires CanSign(pv.scheme, chainID, prevote) && CanSign(pv.scheme, chainID, precommit)
    modifies pv
    ensures pv.Live() && proposed.Signed? && prevoted.Signed? && precommitted.Signed?
    ensures late == Regressed && later == Regressed && latest == Regressed
  {
    hide NoDoubleSigning, NoRegression, Covers, Stored, Lawful;
    proposed := pv.SignProposal(chainID, proposal, Completes);
    prevoted := pv.SignVote(chainID, prevote, Completes);
    late := pv.SignProposal(chainID, proposal, Completes);
    precommitted := pv.SignVote(chainID, precommit, Completes);
    later := pv.SignVote(chainID, prevote, Completes);
    latest := pv.SignProposal(chainID, proposal, Completes);
  }
}
