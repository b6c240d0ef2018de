/** Framing of the consensus write-ahead log, torn writes and repair: consensus/wal.go, consensus/state.go. */
module WriteAheadLog {
  import opened Power

  type Byte = n: nat | n < 256

  type Bytes = seq<Byte>

  const MAX_MSG_SIZE_BYTES := 512 * 1024 + 24

  /** A message that ends a height, or any other consensus message. */
  datatype WalMessage = EndHeight(height: int) | Other(content: nat)

  datatype TimedMessage = TimedMessage(time: int, msg: WalMessage)

  /** Marshalling of timed messages, and the checksum. */
  datatype Codec = Codec(marshal: TimedMessage -> Bytes, unmarshal: Bytes -> Option<TimedMessage>, crc: Bytes -> nat)

  ghost predicate Lawful(c: Codec) {
    && (forall m :: c.unmarshal(c.marshal(m)) == Some(m) && |c.marshal(m)| < 0x1_0000_0000)
    && (forall b :: c.crc(b) < 0x1_0000_0000)
  }

  //---------------------------------------------------------------------------
  // Big-endian integers

  function PutUint32(n: nat): (r: Bytes)
    requires n < 0x1_0000_0000
    ensures |r| == 4 && Uint32(r) == n
  {
    var high, low := n / 0x1_0000, n % 0x1_0000;
    [high / 0x100, high % 0x100, low / 0x100, low % 0x100]
  }

  function Uint32(b: Bytes): (n: nat)
    requires |b| == 4
    ensures n < 0x1_0000_0000
  {
    var high, low := 0x100 * b[0] as nat + b[1] as nat, 0x100 * b[2] as nat + b[3] as nat;
    0x1_0000 * high + low
  }

  //---------------------------------------------------------------------------
  // Frames

  /** 4 bytes of checksum, 4 bytes of length, and the message. */
  function Frame(c: Codec, m: TimedMessage): (r: Bytes)
    requires Lawful(c)
    ensures |r| == 8 + |c.marshal(m)|
  {
    PutUint32(c.crc(c.marshal(m))) + PutUint32(|c.marshal(m)|) + c.marshal(m)
  }

  lemma WithinUint32(c: Codec, m: TimedMessage)
    requires Lawful(c)
    ensures |c.marshal(m)| < 0x1_0000_0000 && c.crc(c.marshal(m)) < 0x1_0000_0000
  {
  }

  function Frames(c: Codec, ms: seq<TimedMessage>): Bytes
    requires Lawful(c)
  {
    if ms == [] then [] else Frame(c, ms[0]) + Frames(c, ms[1..])
  }

  ghost predicate Fits(c: Codec, ms: seq<TimedMessage>) {
    forall i :: 0 <= i < |ms| ==> |c.marshal(ms[i])| <= MAX_MSG_SIZE_BYTES
  }

  datatype Decoded = Decoded(message: TimedMessage, size: nat) | EndOfFile | Corrupted

  /** What a decoder makes of the bytes in front of it. */
  function DecodeNext(c: Codec, b: Bytes): (r: Decoded)
    ensures r.Decoded? ==> 8 <= r.size <= |b|
  {
    if b == [] then EndOfFile
    else if |b| < 8 then Corrupted
    else
      var crc, length := Uint32(b[..4]), Uint32(b[4..8]);
      if length > MAX_MSG_SIZE_BYTES || |b| < 8 + length then Corrupted
      else
        var data := b[8..8 + length];
        if c.crc(data) != crc then Corrupted
        else
          match c.unmarshal(data)
          case None => Corrupted
          case Some(m) => Decoded(m, 8 + length)
  }

  /** All the messages up to the first error, and whether that was the end of the file. */
  function DecodeAll(c: Codec, b: Bytes): (seq<TimedMessage>, bool)
    decreases |b|
  {
    match DecodeNext(c, b)
    case EndOfFile => ([], true)
    case Corrupted => ([], false)
    case Decoded(m, size) =>
      var rest := DecodeAll(c, b[size..]);
      ([m] + rest.0, rest.1)
  }

  /** A whole frame decodes to its message, whatever follows. */
  lemma DecodeFrame(c: Codec, m: TimedMessage, rest: Bytes)
    requires Lawful(c) && |c.marshal(m)| <= MAX_MSG_SIZE_BYTES
    ensures DecodeNext(c, Frame(c, m) + rest) == Decoded(m, |Frame(c, m)|)
  {
    var b, data := Frame(c, m) + rest, c.marshal(m);
    assert b[..4] == PutUint32(c.crc(data)) && b[4..8] == PutUint32(|data|) && b[8..8 + |data|] == data;
  }

  lemma NothingLeft(c: Codec)
    ensures DecodeNext(c, []) == EndOfFile
  {
  }

  /** Part of a frame is always recognized as corruption. */
  lemma DecodeTornFrame(c: Codec, m: TimedMessage, k: nat)
    requires Lawful(c) && |c.marshal(m)| <= MAX_MSG_SIZE_BYTES && 0 < k < |Frame(c, m)|
    ensures DecodeNext(c, Frame(c, m)[..k]) == Corrupted
  {
    var f, b, data := Frame(c, m), Frame(c, m)[..k], c.marshal(m);
    if k >= 8 {
      assert f[4..8] == PutUint32(|data|);
      assert b[4..8] == f[4..8];
    }
  }

  /** How many of the messages have their frames within the first k bytes. */
  ghost function Complete(c: Codec, ms: seq<TimedMessage>, k: nat): (n: nat)
    requires Lawful(c)
    ensures n <= |ms|
  {
    if ms == [] || k < |Frame(c, ms[0])| then 0 else 1 + Complete(c, ms[1..], k - |Frame(c, ms[0])|)
  }

  /** `Complete` counts exactly the frames that end by k. */
  lemma {:induction false} CompleteIsExact(c: Codec, ms: seq<TimedMessage>, k: nat, n: nat)
    requires Lawful(c) && n <= |ms|
    ensures n <= Complete(c, ms, k) <==> |Frames(c, ms[..n])| <= k
    decreases n
  {
    if n > 0 {
      assert ms[..n][0] == ms[0] && ms[..n][1..] == ms[1..][..n - 1];
      if k >= |Frame(c, ms[0])| {
        CompleteIsExact(c, ms[1..], k - |Frame(c, ms[0])|, n - 1);
      }
    }
  }

  /**
    A log cut off after any number of bytes decodes to the messages that were written
    completely, and the cut is noticed unless it falls between two frames.
  */
  lemma {:induction false} TornWrites(c: Codec, ms: seq<TimedMessage>, k: nat)
    requires Lawful(c) && Fits(c, ms) && k <= |Frames(c, ms)|
    ensures var n := Complete(c, ms, k);
      DecodeAll(c, Frames(c, ms)[..k]) == (ms[..n], k == |Frames(c, ms[..n])|)
    decreases |ms|
  {
    hide Lawful, DecodeNext, Frame;
    var b, n := Frames(c, ms)[..k], Complete(c, ms, k);
    NothingLeft(c);
    if ms != [] {
      var size := |Frame(c, ms[0])|;
      if k >= size {
        var rest := Frames(c, ms[1..])[..k - size];
        assert b == Frame(c, ms[0]) + rest && b[size..] == rest;
        DecodeFrame(c, ms[0], rest);
        TornWrites(c, ms[1..], k - size);
        assert ms[..n][0] == ms[0] && ms[..n][1..] == ms[1..][..n - 1];
        assert [ms[0]] + ms[1..][..n - 1] == ms[..n];
      } else if k > 0 {
        assert b == Frame(c, ms[0])[..k];
        DecodeTornFrame(c, ms[0], k);
      }
    }
  }

  /** Decoding undoes encoding. */
  lemma RoundTrip(c: Codec, ms: seq<TimedMessage>)
    requires Lawful(c) && Fits(c, ms)
    ensures DecodeAll(c, Frames(c, ms)) == (ms, true)
  {
    hide Lawful, DecodeAll, Frame;
    TornWrites(c, ms, |Frames(c, ms)|);
    CompleteIsExact(c, ms, |Frames(c, ms)|, |ms|);
    assert ms[..|ms|] == ms && Frames(c, ms)[..|Frames(c, ms)|] == Frames(c, ms);
  }

  //---------------------------------------------------------------------------
  // What bytes decode to, and damage

  /** The first byte is the highest. */
  ghost function BigEndian(b: Bytes): nat
    requires |b| == 4
  {
    b[0] as nat * 16777216 + b[1] as nat * 65536 + b[2] as nat * 256 + b[3] as nat
  }

  /** A frame is checksum, length and payload, the numbers with the highest byte first. */
  lemma FrameLayout(c: Codec, m: TimedMessage)
    requires Lawful(c)
    ensures var f := Frame(c, m);
      && BigEndian(f[..4]) == c.crc(f[8..]) && BigEndian(f[4..8]) == |f[8..]| && f[8..] == c.marshal(m)
  {
    var f, data := Frame(c, m), c.marshal(m);
    assert f[..4] == PutUint32(c.crc(data)) && f[4..8] == PutUint32(|data|) && f[8..] == data;
  }

  /**
    Bytes decode to a message if and only if they start with the checksum and the length, of at most 524312, of a
    payload that unmarshals to it; there is an end only where there is nothing, and all else is corrupted.
  */
  lemma DecodesExactly(c: Codec, b: Bytes, m: TimedMessage, size: nat)
    ensures DecodeNext(c, b) == EndOfFile <==> b == []
    ensures DecodeNext(c, b) == Decoded(m, size) <==>
      && 8 <= size <= |b| && size - 8 <= 524312
      && BigEndian(b[4..8]) == size - 8 && BigEndian(b[..4]) == c.crc(b[8..size])
      && c.unmarshal(b[8..size]) == Some(m)
  {
    if |b| >= 8 {
      assert Uint32(b[..4]) == BigEndian(b[..4]) && Uint32(b[4..8]) == BigEndian(b[4..8]);
    }
  }

  /** Bytes in place of a frame, of its length, whose checksum no longer fits. */
  ghost predicate Damages(c: Codec, m: TimedMessage, d: Bytes)
    requires Lawful(c)
  {
    && |d| == |Frame(c, m)| && d[4..8] == Frame(c, m)[4..8]
    && BigEndian(d[..4]) != c.crc(d[8..])
  }

  /** A damaged frame is recognized, and reading moves past exactly it. */
  lemma DecodeDamaged(c: Codec, m: TimedMessage, d: Bytes, rest: Bytes)
    requires Lawful(c) && |c.marshal(m)| <= MAX_MSG_SIZE_BYTES && Damages(c, m, d)
    ensures DecodeNext(c, d + rest) == Corrupted && Consumed(d + rest) == |d|
  {
    FrameLayout(c, m);
    var b := d + rest;
    assert b[..4] == d[..4] && b[4..8] == d[4..8] && b[8..|d|] == d[8..];
    assert Uint32(b[4..8]) == BigEndian(d[4..8]) && Uint32(b[..4]) == BigEndian(d[..4]);
  }

  /** A log of which one frame is damaged decodes to exactly the messages before it, and then fails. */
  lemma {:induction false} DamagedLog(c: Codec, ms: seq<TimedMessage>, m: TimedMessage, d: Bytes, rest: Bytes)
    requires Lawful(c) && Fits(c, ms) && |c.marshal(m)| <= MAX_MSG_SIZE_BYTES && Damages(c, m, d)
    ensures DecodeAll(c, Frames(c, ms) + d + rest) == (ms, false)
    decreases |ms|
  {
    hide Lawful, DecodeNext, Frame, Damages;
    if ms == [] {
      NoFrames(c);
      assert Frames(c, ms) + d + rest == d + rest;
      DecodeDamaged(c, m, d, rest);
    } else {
      var tail := Frames(c, ms[1..]) + d + rest;
      assert Frames(c, ms) + d + rest == Frame(c, ms[0]) + tail;
      assert (Frame(c, ms[0]) + tail)[|Frame(c, ms[0])|..] == tail;
      DecodeFrame(c, ms[0], tail);
      DamagedLog(c, ms[1..], m, d, rest);
      assert [ms[0]] + ms[1..] == ms;
    }
  }

  /** Repairing it keeps exactly the messages before the damage. */
  method RepairDamaged(c: Codec, ms: seq<TimedMessage>, m: TimedMessage, d: Bytes, rest: Bytes)
    returns (ok: bool, dst: Bytes)
    requires Lawful(c) && Fits(c, ms) && |c.marshal(m)| <= MAX_MSG_SIZE_BYTES && Damages(c, m, d)
    ensures ok && dst == Frames(c, ms)
  {
    DamagedLog(c, ms, m, d, rest);
    ok, dst := RepairWalFile(c, Frames(c, ms) + d + rest);
  }

  //---------------------------------------------------------------------------
  // Encoder and decoder

  method CopyInto(a: array<Byte>, at: nat, b: Bytes)
    requires at + |b| <= a.Length
    modifies a
    ensures a[at..at + |b|] == b && a[..at] == old(a[..at]) && a[at + |b|..] == old(a[at + |b|..])
  {
    forall i | 0 <= i < |b| {
      a[at + i] := b[i];
    }
  }

  method PutHeader(a: array<Byte>, crc: Bytes, size: Bytes)
    requires |crc| == 4 && |size| == 4 && a.Length >= 8
    modifies a
    ensures a[..8] == crc + size && a[8..] == old(a[8..])
  {
    CopyInto(a, 0, crc);
    assert a[..4] == crc && a[8..] == a[4..][4..];
    CopyInto(a, 4, size);
    assert a[..8] == a[..4] + a[4..8];
  }

  /** Appends frames to a stream, through a buffer that is reused while it is large enough. */
  class Encoder {
    const codec: Codec
    var out: Bytes
    var buf: array<Byte>

    constructor (codec: Codec)
      ensures this.codec == codec && out == [] && fresh(buf)
    {
      this.codec := codec;
      out := [];
      buf := new Byte[0];
    }

    /** Fails exactly for messages over the limit, and then writes nothing. */
    method Encode(m: TimedMessage) returns (ok: bool)
      requires Lawful(codec)
      modifies this, buf
      ensures ok <==> |codec.marshal(m)| <= MAX_MSG_SIZE_BYTES
      ensures out == if ok then old(out) + Frame(codec, m) else old(out)
      ensures buf == old(buf) || fresh(buf)
    {
      hide Lawful, PutUint32, Uint32;
      var data := codec.marshal(m);
      WithinUint32(codec, m);
      var length := |data| % 0x1_0000_0000;
      if length > MAX_MSG_SIZE_BYTES {
        return false;
      }
      var total := 8 + |data|;
      if buf.Length < total {
        buf := new Byte[total];
      }
      CopyInto(buf, 8, data);
      var crc, size := PutUint32(codec.crc(buf[8..total])), PutUint32(length);
      PutHeader(buf, crc, size);
      assert buf[8..total] == buf[8..][..|data|] == data;
      assert buf[..total] == buf[..8] + buf[8..total];
      out := out + buf[..total];
      return true;
    }
  }

  datatype ReadStatus = Full | Nothing | Short

  /** How far a decoder moves, also over corrupted bytes. */
  function Consumed(b: Bytes): (n: nat)
    ensures n <= |b| && (b != [] ==> n > 0)
  {
    if |b| < 8 then |b|
    else
      var length := Uint32(b[4..8]);
      if length > MAX_MSG_SIZE_BYTES then 8
      else if |b| < 8 + length then |b|
      else 8 + length
  }

  /** Reads frames from a stream. */
  class Decoder {
    const codec: Codec
    const data: Bytes
    var pos: nat
    const header: array<Byte>
    var buf: array<Byte>

    ghost predicate Valid()
      reads this
    {
      pos <= |data| && header.Length == 8 && header != buf
    }

    constructor (codec: Codec, data: Bytes)
      ensures Valid() && this.codec == codec && this.data == data && pos == 0 && fresh(header) && fresh(buf)
    {
      this.codec := codec;
      this.data := data;
      pos := 0;
      header := new Byte[8];
      buf := new Byte[0];
    }

    /** Fills the first n bytes of an array as far as the stream allows. */
    method ReadFull(a: array<Byte>, n: nat) returns (r: ReadStatus)
      requires pos <= |data| && n <= a.Length
      modifies this`pos, a
      ensures pos == if old(pos) + n <= |data| then old(pos) + n else |data|
      ensures r == if old(pos) + n <= |data| then Full else if old(pos) == |data| then Nothing else Short
      ensures r == Full ==> a[..n] == data[old(pos)..pos]
    {
      var got := if pos + n <= |data| then n else |data| - pos;
      forall i | 0 <= i < got {
        a[i] := data[pos + i];
      }
      pos := pos + got;
      r := if got == n then Full else if got == 0 then Nothing else Short;
    }

    method Decode() returns (r: Decoded)
      requires Valid()
      modifies this, header, buf
      ensures Valid() && (buf == old(buf) || fresh(buf))
      ensures r == DecodeNext(codec, data[old(pos)..])
      ensures pos == old(pos) + Consumed(data[old(pos)..])
    {
      ghost var b := data[pos..];
      var status := ReadFull(header, 8);
      if status == Nothing {
        return EndOfFile;
      }
      if status == Short {
        return Corrupted;
      }
      assert header[..4] == b[..4] && header[4..8] == b[4..8];
      var crc, length := Uint32(header[..4]), Uint32(header[4..8]);
      if length > MAX_MSG_SIZE_BYTES {
        return Corrupted;
      }
      if buf.Length < length {
        buf := new Byte[length];
      }
      status := ReadFull(buf, length);
      if status != Full {
        return Corrupted;
      }
      assert buf[..length] == b[8..8 + length];
      if codec.crc(buf[..length]) != crc {
        return Corrupted;
      }
      var m := codec.unmarshal(buf[..length]);
      r := if m == None then Corrupted else Decoded(m.value, 8 + length);
    }
  }

  //---------------------------------------------------------------------------
  // Repair

  /** Copies messages until the first error. Fails only if a message has become too large. */
  method RepairWalFile(c: Codec, src: Bytes) returns (ok: bool, dst: Bytes)
    requires Lawful(c)
    ensures ok <==> Fits(c, DecodeAll(c, src).0)
    ensures ok ==> dst == Frames(c, DecodeAll(c, src).0)
  {
    var dec := new Decoder(c, src);
    var enc := new Encoder(c);
    hide Lawful, Frame, Frames, DecodeNext, DecodeAll, Consumed;
    ghost var copied: seq<TimedMessage> := [];
    assert src[0..] == src;
    NoFrames(c);
    while true
      invariant dec.Valid() && dec.codec == enc.codec == c && dec.data == src
      invariant fresh(dec) && fresh(dec.header) && fresh(dec.buf) && fresh(enc) && fresh(enc.buf)
      invariant enc.buf != dec.buf && enc.buf != dec.header
      invariant Fits(c, copied) && enc.out == Frames(c, copied)
      invariant DecodeAll(c, src).0 == copied + DecodeAll(c, src[dec.pos..]).0
      decreases |src| - dec.pos
    {
      ghost var rest := src[dec.pos..];
      DecodeStep(c, rest);
      var r := dec.Decode();
      if !r.Decoded? {
        assert DecodeAll(c, src).0 == copied;
        break;
      }
      assert rest[r.size..] == src[dec.pos..];
      assert r.message == DecodeAll(c, src).0[|copied|];
      ok := enc.Encode(r.message);
      if !ok {
        return false, enc.out;
      }
      FramesExtend(c, copied, r.message);
      copied := copied + [r.message];
    }
    return true, enc.out;
  }

  lemma DecodeStep(c: Codec, b: Bytes)
    ensures DecodeNext(c, b).Decoded? ==>
      && 0 < DecodeNext(c, b).size == Consumed(b) <= |b|
      && DecodeAll(c, b).0 == [DecodeNext(c, b).message] + DecodeAll(c, b[DecodeNext(c, b).size..]).0
    ensures !DecodeNext(c, b).Decoded? ==> DecodeAll(c, b).0 == []
  {
  }

  lemma NoFrames(c: Codec)
    requires Lawful(c)
    ensures Frames(c, []) == []
  {
  }

  lemma {:induction false} FramesExtend(c: Codec, ms: seq<TimedMessage>, m: TimedMessage)
    requires Lawful(c)
    ensures Frames(c, ms + [m]) == Frames(c, ms) + Frame(c, m)
    decreases |ms|
  {
    hide Lawful, Frame;
    if ms != [] {
      FramesExtend(c, ms[1..], m);
      assert (ms + [m])[1..] == ms[1..] + [m];
    } else {
      assert (ms + [m])[1..] == [];
    }
  }

  /** A repaired file has the messages of the damaged one and no damage; repairing it again changes nothing. */
  lemma RepairIsClean(c: Codec, src: Bytes)
    requires Lawful(c) && Fits(c, DecodeAll(c, src).0)
    ensures var dst := Frames(c, DecodeAll(c, src).0);
      DecodeAll(c, dst) == (DecodeAll(c, src).0, true) && Frames(c, DecodeAll(c, dst).0) == dst
  {
    RoundTrip(c, DecodeAll(c, src).0);
  }

  /** Repairing a log that was cut off gives the log of the messages that were written completely. */
  lemma RepairTornWrites(c: Codec, ms: seq<TimedMessage>, k: nat)
    requires Lawful(c) && Fits(c, ms) && k <= |Frames(c, ms)|
    ensures Frames(c, DecodeAll(c, Frames(c, ms)[..k]).0) == Frames(c, ms[..Complete(c, ms, k)])
  {
    TornWrites(c, ms, k);
  }

  //---------------------------------------------------------------------------
  // Searching for the end of a height

  /** Reading a group of files from one of them on goes through to the last. */
  function Stream(files: seq<Bytes>, i: nat): Bytes
    requires i <= |files|
    decreases |files| - i
  {
    if i == |files| then [] else files[i] + Stream(files, i + 1)
  }

  datatype Scanned = FoundAt(rest: Bytes) | AtEnd(last: int) | ScanFailed

  /** Reads on to the end of the height; `last` is the last height whose end was seen. */
  function Scan(c: Codec, b: Bytes, height: int, last: int, ignoreCorruption: bool): Scanned
    decreases |b|
  {
    match DecodeNext(c, b)
    case EndOfFile => AtEnd(last)
    case Corrupted => if ignoreCorruption then Scan(c, b[Consumed(b)..], height, last, true) else ScanFailed
    case Decoded(m, size) =>
      if !m.msg.EndHeight? then Scan(c, b[size..], height, last, ignoreCorruption)
      else if m.msg.height == height then FoundAt(b[size..])
      else Scan(c, b[size..], height, m.msg.height, ignoreCorruption)
  }

  datatype Search = Found(rest: Bytes) | NotFound | SearchFailed

  /** Tries the files from number n - 1 down, unless a lower height was the last to end. */
  function SearchFrom(c: Codec, files: seq<Bytes>, n: nat, height: int, last: int, ignoreCorruption: bool): Search
    requires n <= |files|
  {
    if n == 0 then NotFound
    else
      match Scan(c, Stream(files, n - 1), height, last, ignoreCorruption)
      case FoundAt(rest) => Found(rest)
      case ScanFailed => SearchFailed
      case AtEnd(seen) =>
        if 0 < seen < height then NotFound else SearchFrom(c, files, n - 1, height, seen, ignoreCorruption)
  }

  method SearchForEndHeight(c: Codec, files: seq<Bytes>, height: int, ignoreCorruption: bool) returns (r: Search)
    ensures r == SearchFrom(c, files, |files|, height, -1, ignoreCorruption)
  {
    hide DecodeNext, Consumed;
    var last := -1;
    var n := |files|;
    while n > 0
      invariant 0 <= n <= |files|
      invariant SearchFrom(c, files, |files|, height, -1, ignoreCorruption) ==
        SearchFrom(c, files, n, height, last, ignoreCorruption)
    {
      var data := Stream(files, n - 1);
      var dec := new Decoder(c, data);
      assert data[0..] == data;
      ghost var first := last;
      while true
        invariant fresh(dec) && fresh(dec.header) && fresh(dec.buf) && dec.Valid() && dec.codec == c && dec.data == data
        invariant Scan(c, data, height, first, ignoreCorruption) ==
          Scan(c, data[dec.pos..], height, last, ignoreCorruption)
        decreases |data| - dec.pos
      {
        ghost var b := data[dec.pos..];
        DecodeStep(c, b);
        var m := dec.Decode();
        assert b[Consumed(b)..] == data[dec.pos..];
        if m == EndOfFile {
          break;
        }
        if m == Corrupted {
          if !ignoreCorruption {
            return SearchFailed;
          }
          assert Consumed(b) > 0 by { MovesOn(c, b); }
        } else if m.message.msg.EndHeight? {
          last := m.message.msg.height;
          if last == height {
            return Found(data[dec.pos..]);
          }
        }
      }
      if 0 < last < height {
        return NotFound;
      }
      n := n - 1;
    }
    return NotFound;
  }

  lemma MovesOn(c: Codec, b: Bytes)
    requires DecodeNext(c, b) != EndOfFile
    ensures Consumed(b) > 0
  {
  }

  /** The ends of heights come in order. */
  ghost predicate InOrder(ms: seq<TimedMessage>) {
    forall i, j :: 0 <= i < j < |ms| && ms[i].msg.EndHeight? && ms[j].msg.EndHeight? ==>
      ms[i].msg.height <= ms[j].msg.height
  }

  ghost predicate Ends(m: TimedMessage, height: int) {
    m.msg == EndHeight(height)
  }

  ghost function LastEnd(ms: seq<TimedMessage>, last: int): int {
    if ms == [] then last
    else LastEnd(ms[1..], if ms[0].msg.EndHeight? then ms[0].msg.height else last)
  }

  /** The messages of the files from one on. */
  ghost function Written(parts: seq<seq<TimedMessage>>, i: nat): seq<TimedMessage>
    requires i <= |parts|
    decreases |parts| - i
  {
    if i == |parts| then [] else parts[i] + Written(parts, i + 1)
  }

  /** Scanning a log stops right after the first end of the height, if there is one. */
  lemma {:induction false} ScanFrames(c: Codec, ms: seq<TimedMessage>, height: int, last: int, ignoreCorruption: bool)
    returns (i: nat)
    requires Lawful(c) && Fits(c, ms)
    ensures i <= |ms| && forall j :: 0 <= j < i ==> !Ends(ms[j], height)
    ensures i < |ms| ==>
      Ends(ms[i], height) && Scan(c, Frames(c, ms), height, last, ignoreCorruption) == FoundAt(Frames(c, ms[i + 1..]))
    ensures i == |ms| ==> Scan(c, Frames(c, ms), height, last, ignoreCorruption) == AtEnd(LastEnd(ms, last))
    decreases |ms|
  {
    hide Lawful, DecodeNext, Frame;
    if ms == [] {
      NothingLeft(c);
      return 0;
    }
    var rest := Frames(c, ms[1..]);
    DecodeFrame(c, ms[0], rest);
    assert (Frame(c, ms[0]) + rest)[|Frame(c, ms[0])|..] == rest;
    if Ends(ms[0], height) {
      return 0;
    }
    i := ScanFrames(c, ms[1..], height, if ms[0].msg.EndHeight? then ms[0].msg.height else last, ignoreCorruption);
    i := i + 1;
    assert i < |ms| ==> ms[1..][i..] == ms[i + 1..];
  }

  /** At damage the scan fails, or goes on right after it if corruption is to be ignored. */
  lemma {:induction false} ScanDamaged(c: Codec, ms: seq<TimedMessage>, m: TimedMessage, d: Bytes, rest: Bytes,
                                       height: int, last: int, ignoreCorruption: bool)
    requires Lawful(c) && Fits(c, ms) && |c.marshal(m)| <= MAX_MSG_SIZE_BYTES && Damages(c, m, d)
    requires forall j :: 0 <= j < |ms| ==> !Ends(ms[j], height)
    ensures Scan(c, Frames(c, ms) + d + rest, height, last, ignoreCorruption) ==
      if ignoreCorruption then Scan(c, rest, height, LastEnd(ms, last), true) else ScanFailed
    decreases |ms|
  {
    hide Lawful, DecodeNext, Frame, Damages, Consumed;
    if ms == [] {
      NoFrames(c);
      assert Frames(c, ms) + d + rest == d + rest && (d + rest)[|d|..] == rest;
      DecodeDamaged(c, m, d, rest);
    } else {
      var tail := Frames(c, ms[1..]) + d + rest;
      assert Frames(c, ms) + d + rest == Frame(c, ms[0]) + tail;
      assert (Frame(c, ms[0]) + tail)[|Frame(c, ms[0])|..] == tail;
      DecodeFrame(c, ms[0], tail);
      var next := if ms[0].msg.EndHeight? then ms[0].msg.height else last;
      ScanDamaged(c, ms[1..], m, d, rest, height, next, ignoreCorruption);
    }
  }

  lemma {:induction false} FramesJoin(c: Codec, a: seq<TimedMessage>, b: seq<TimedMessage>)
    requires Lawful(c)
    ensures Frames(c, a + b) == Frames(c, a) + Frames(c, b)
    decreases |a|
  {
    hide Lawful, Frame;
    if a == [] {
      assert a + b == b;
    } else {
      assert (a + b)[1..] == a[1..] + b;
      FramesJoin(c, a[1..], b);
    }
  }

  lemma {:induction false} StreamIsFrames(c: Codec, files: seq<Bytes>, parts: seq<seq<TimedMessage>>, i: nat)
    requires Lawful(c) && |files| == |parts| && i <= |files|
    requires forall k :: 0 <= k < |files| ==> files[k] == Frames(c, parts[k]) && Fits(c, parts[k])
    ensures Stream(files, i) == Frames(c, Written(parts, i)) && Fits(c, Written(parts, i))
    decreases |files| - i
  {
    hide Lawful, Frame;
    if i < |files| {
      StreamIsFrames(c, files, parts, i + 1);
      FramesJoin(c, parts[i], Written(parts, i + 1));
    } else {
      NoFrames(c);
    }
  }

  /** The last end of a height is no lower than any other. */
  lemma {:induction false} LastEndIsHighest(ms: seq<TimedMessage>, last: int)
    requires InOrder(ms) && forall j :: 0 <= j < |ms| && ms[j].msg.EndHeight? ==> last <= ms[j].msg.height
    ensures last <= LastEnd(ms, last)
    ensures forall j :: 0 <= j < |ms| && ms[j].msg.EndHeight? ==> ms[j].msg.height <= LastEnd(ms, last)
    decreases |ms|
  {
    if ms != [] {
      LastEndIsHighest(ms[1..], if ms[0].msg.EndHeight? then ms[0].msg.height else last);
      forall j | 0 < j < |ms| && ms[j].msg.EndHeight? ensures ms[j].msg.height <= LastEnd(ms, last) {
        assert ms[j] == ms[1..][j - 1];
      }
    }
  }

  lemma {:induction false} LastEndSeen(ms: seq<TimedMessage>, last: int, i: nat)
    requires i < |ms| && ms[i].msg.EndHeight?
    ensures LastEnd(ms, last) == LastEnd(ms, -1)
    decreases |ms|
  {
    if i > 0 && !ms[0].msg.EndHeight? {
      LastEndSeen(ms[1..], last, i - 1);
    }
  }

  lemma {:induction false} LastEndUnseen(ms: seq<TimedMessage>, last: int)
    requires forall j :: 0 <= j < |ms| ==> !ms[j].msg.EndHeight?
    ensures LastEnd(ms, last) == last
    decreases |ms|
  {
    if ms != [] {
      LastEndUnseen(ms[1..], last);
    }
  }

  lemma {:induction false} WrittenIsSuffix(parts: seq<seq<TimedMessage>>, i: nat) returns (k: nat)
    requires i <= |parts|
    ensures k <= |Written(parts, 0)| && Written(parts, 0)[k..] == Written(parts, i)
    decreases i
  {
    if i == 0 {
      k := 0;
    } else {
      k := WrittenIsSuffix(parts, i - 1);
      assert Written(parts, 0)[k..][|parts[i - 1]|..] == Written(parts, i);
      k := k + |parts[i - 1]|;
    }
  }

  /** Nothing yet, or no end of a height in the log is above it. */
  ghost predicate NoneAbove(ms: seq<TimedMessage>, seen: int) {
    seen == -1 || forall j :: 0 <= j < |ms| && ms[j].msg.EndHeight? ==> ms[j].msg.height <= seen
  }

  lemma SeenIsHighest(ms: seq<TimedMessage>, k: nat, last: int)
    requires InOrder(ms) && k <= |ms| && NoneAbove(ms, last)
    requires forall j :: 0 <= j < |ms| && ms[j].msg.EndHeight? ==> ms[j].msg.height >= 0
    ensures NoneAbove(ms, LastEnd(ms[k..], last))
  {
    var suffix := ms[k..];
    if i :| 0 <= i < |suffix| && suffix[i].msg.EndHeight? {
      LastEndSeen(suffix, last, i);
      LastEndIsHighest(suffix, -1);
      forall j | 0 <= j < |ms| && ms[j].msg.EndHeight? ensures ms[j].msg.height <= LastEnd(suffix, last) {
        assert j >= k ==> ms[j] == suffix[j - k];
        assert j < k ==> ms[j].msg.height <= ms[k + i].msg.height;
      }
    } else {
      LastEndUnseen(suffix, last);
    }
  }

  /**
    In an undamaged log the search finds the end of a height if and only if the log has it, and stops right after it.
  */
  lemma {:induction false} SearchExact(c: Codec, files: seq<Bytes>, parts: seq<seq<TimedMessage>>, n: nat, height: int,
                                       last: int)
    returns (i: nat)
    requires Lawful(c) && |files| == |parts| && n <= |files|
    requires forall k :: 0 <= k < |files| ==> files[k] == Frames(c, parts[k]) && Fits(c, parts[k])
    requires InOrder(Written(parts, 0)) && NoneAbove(Written(parts, 0), last)
    requires forall j :: 0 <= j < |Written(parts, 0)| && Written(parts, 0)[j].msg.EndHeight? ==>
      Written(parts, 0)[j].msg.height >= 0
    requires forall m :: m in Written(parts, n) ==> !Ends(m, height)
    ensures var all := Written(parts, 0);
      && i <= |all|
      && (i == |all| ==>
            SearchFrom(c, files, n, height, last, false) == NotFound && forall m :: m in all ==> !Ends(m, height))
      && (i < |all| ==>
            SearchFrom(c, files, n, height, last, false) == Found(Frames(c, all[i + 1..])) && Ends(all[i], height))
    decreases n
  {
    hide Lawful, Frame, Frames, Scan, InOrder;
    var all := Written(parts, 0);
    if n == 0 {
      return |all|;
    }
    var suffix := Written(parts, n - 1);
    var k := WrittenIsSuffix(parts, n - 1);
    StreamIsFrames(c, files, parts, n - 1);
    i := ScanFrames(c, suffix, height, last, false);
    if i < |suffix| {
      assert suffix[i + 1..] == all[k + i + 1..];
      return k + i;
    }
    var seen := LastEnd(suffix, last);
    SeenIsHighest(all, k, last);
    if 0 < seen < height {
      return |all|;
    }
    i := SearchExact(c, files, parts, n - 1, height, seen);
  }
}
