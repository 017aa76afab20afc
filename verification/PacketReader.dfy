/** The framing of scrcpy's video and audio sockets. */
module PacketReader {
  import opened Common
  import opened Bytes
  import VideoForwarder

  const HEADER := 12
  const MAX_PACKET := 50_000_000
  const BIT61 := 0x2000_0000_0000_0000
  const BIT62 := 0x4000_0000_0000_0000
  const BIT63 := 0x8000_0000_0000_0000

  /** One packet on the wire.  Times are microseconds, as in the header. */
  datatype Frame =
    | SessionMeta(width: U32, height: U32, isClientResize: bool)
    | Media(config: bool, keyFrame: bool, pts: int, payload: seq<Byte>)

  predicate Encodable(f: Frame) {
    f.Media? ==> 0 <= f.pts < BIT61 && 0 < |f.payload| <= MAX_PACKET
  }

  datatype Outcome =
    | Packet(f: Frame, rest: seq<Byte>)
    | ZeroSize
    | TooBig(size: nat)
    | Truncated          // the socket ended inside a packet

  function Flags(config: bool, keyFrame: bool, pts: int): U64
    requires 0 <= pts < BIT61
  {
    (if config then BIT62 else 0) + (if keyFrame then BIT61 else 0) + pts
  }

  function Bit(b: bool): int { if b then 1 else 0 }

  /** ReadPacket on everything the socket will deliver; io.ReadFull makes the cut
      into reads invisible. */
  function Read(s: seq<Byte>): Outcome {
    if |s| < HEADER then Truncated
    else
      var v := Get64(s[0..8]);
      var size := Get32(s[8..12]);
      if v / BIT63 % 2 == 1 then
        Packet(SessionMeta(Get32(s[4..8]), size, Get32(s[0..4]) % 2 == 1), s[HEADER..])
      else if size == 0 then ZeroSize
      else if size > MAX_PACKET then TooBig(size)
      else if |s| < HEADER + size then Truncated
      else Packet(Media(v / BIT62 % 2 == 1, v / BIT61 % 2 == 1, v % BIT61, s[HEADER..HEADER + size]),
                  s[HEADER + size..])
  }

  class Reader {
    var pending: seq<Byte>

    constructor (stream: seq<Byte>)
      ensures pending == stream
    {
      pending := stream;
    }

    /** io.ReadFull: all n bytes or an error. */
    method ReadFull(n: nat) returns (b: Option<seq<Byte>>)
      modifies this
      ensures b.Some? <==> n <= |old(pending)|
      ensures b.Some? ==> b.value == old(pending)[..n] && pending == old(pending)[n..]
    {
      if n > |pending| {
        pending := [];
        return None;
      }
      b := Some(pending[..n]);
      pending := pending[n..];
    }

    method ReadPacket() returns (o: Outcome)
      modifies this
      ensures o == Read(old(pending))
      ensures o.Packet? ==> pending == o.rest
    {
      ghost var s := pending;
      var header := ReadFull(HEADER);
      if header.None? { return Truncated; }
      var h := header.value;
      assert h[0..8] == s[0..8] && h[8..12] == s[8..12] && h[4..8] == s[4..8] && h[0..4] == s[0..4];
      var v := Get64(h[0..8]);
      var size := Get32(h[8..12]);
      if v / BIT63 % 2 == 1 {
        return Packet(SessionMeta(Get32(h[4..8]), size, Get32(h[0..4]) % 2 == 1), pending);
      }
      if size == 0 { return ZeroSize; }
      if size > MAX_PACKET { return TooBig(size); }
      var payload := ReadFull(size);
      if payload.None? { return Truncated; }
      assert s[HEADER..][..size] == s[HEADER..HEADER + size] && s[HEADER..][size..] == s[HEADER + size..];
      return Packet(Media(v / BIT62 % 2 == 1, v / BIT61 % 2 == 1, v % BIT61, payload.value), pending);
    }
  }

  // ---------------------------------------------------------------------
  // Round trip
  // ---------------------------------------------------------------------

  function Encode(f: Frame): seq<Byte>
    requires Encodable(f)
  {
    match f
    case SessionMeta(width, height, resize) =>
      Put32(0x8000_0000 + Bit(resize)) + Put32(width) + Put32(height)
    case Media(config, keyFrame, pts, payload) =>
      Put64(Flags(config, keyFrame, pts)) + Put32(|payload|) + payload
  }

  lemma FlagBits(config: bool, keyFrame: bool, pts: int)
    requires 0 <= pts < BIT61
    ensures var v := Flags(config, keyFrame, pts);
            && v / BIT63 % 2 == 0 && v / BIT62 % 2 == Bit(config) && v / BIT61 % 2 == Bit(keyFrame)
            && v % BIT61 == pts
  {}

  lemma ReadMedia(f: Frame, more: seq<Byte>)
    requires f.Media? && Encodable(f)
    ensures Read(Encode(f) + more) == Packet(f, more)
  {
    var s := Encode(f) + more;
    var n := |f.payload|;
    assert s[0..8] == Put64(Flags(f.config, f.keyFrame, f.pts)) && s[8..12] == Put32(n);
    assert s[HEADER..HEADER + n] == f.payload && s[HEADER + n..] == more;
    FlagBits(f.config, f.keyFrame, f.pts);
  }

  lemma ReadMeta(f: Frame, more: seq<Byte>)
    requires f.SessionMeta?
    ensures Read(Encode(f) + more) == Packet(f, more)
  {
    var s := Encode(f) + more;
    var flags := 0x8000_0000 + Bit(f.isClientResize);
    assert s[0..4] == Put32(flags) && s[4..8] == Put32(f.width) && s[8..12] == Put32(f.height);
    assert s[0..8][..4] == s[0..4] && s[0..8][4..] == s[4..8];
    assert Get64(s[0..8]) == flags * TWO32 + f.width;
    assert s[HEADER..] == more;
  }

  lemma ReadBack(f: Frame, more: seq<Byte>)
    requires Encodable(f)
    ensures Encode(f) != [] && Read(Encode(f) + more) == Packet(f, more)
  {
    if f.Media? { ReadMedia(f, more); } else { ReadMeta(f, more); }
  }

  /** The top byte of a 64-bit header. */
  lemma TopByte(b: seq<Byte>) returns (r: nat)
    requires |b| == 8
    ensures r < 0x100_0000_0000_0000 && Get64(b) == b[0] * 0x100_0000_0000_0000 + r
    ensures r == Get64([0] + b[1..])
  {
    var z := [0] + b[1..];
    assert z[..4][..2] == [0, b[1]] && b[..4][..2] == [b[0], b[1]];
    assert z[..4][2..] == b[..4][2..] && z[4..] == b[4..];
    r := Get64(z);
    assert Get16(b[..4][..2]) == (b[0] as int) * 256 + b[1] as int && Get16(z[..4][..2]) == b[1];
    assert Get32(b[..4]) == b[0] * 0x100_0000 + Get32(z[..4]);
  }

  lemma TopBits(top: Byte, r: nat)
    requires r < 0x100_0000_0000_0000
    ensures var v := top * 0x100_0000_0000_0000 + r;
            && v / BIT63 % 2 == top / 128 % 2 && v / BIT62 % 2 == top / 64 % 2 && v / BIT61 % 2 == top / 32 % 2
            && v % BIT61 == top % 32 * 0x100_0000_0000_0000 + r
  {}

  /** The header byte by byte: its top bit marks session metadata; of a media packet the
      next two bits are the configuration and the keyframe flag, and the other 61 its
      time; bytes 8 to 12 are the size of the payload that follows. */
  lemma HeaderBits(s: seq<Byte>)
    requires |s| >= 12 && Read(s).Packet?
    ensures var f, rest := Read(s).f, Read(s).rest;
            && (f.SessionMeta? <==> s[0] >= 128)
            && (f.SessionMeta? ==>
                  f.width == Get32(s[4..8]) && f.height == Get32(s[8..12]) && (f.isClientResize <==> s[3] % 2 == 1)
                  && rest == s[12..])
            && (f.Media? ==>
                  && (f.config <==> s[0] / 64 % 2 == 1) && (f.keyFrame <==> s[0] / 32 % 2 == 1)
                  && f.pts == s[0] % 32 * 0x100_0000_0000_0000 + Get64([0] + s[1..8])
                  && |f.payload| == Get32(s[8..12]) && s[12..] == f.payload + rest)
  {
    var b := s[0..8];
    var r := TopByte(b);
    TopBits(s[0], r);
    assert b[1..] == s[1..8];
    LowBit(s[0..4]);
    var size := Get32(s[8..12]);
    if Read(s).f.Media? {
      assert s[12..] == s[12..12 + size] + s[12 + size..];
    }
  }

  /** Which outcome a read has: session metadata needs its 12 bytes; a media packet needs a
      size from 1 to 50,000,000 and that many more. */
  lemma OutcomeExactly(s: seq<Byte>)
    ensures |s| < 12 ==> Read(s) == Truncated
    ensures |s| >= 12 ==>
              var size := Get32(s[8..12]);
              && (Read(s).Packet? <==> s[0] >= 128 || (0 < size <= 50_000_000 && |s| >= 12 + size))
              && (Read(s) == ZeroSize <==> s[0] < 128 && size == 0)
              && (Read(s) == TooBig(size) <==> s[0] < 128 && size > 50_000_000)
  {
    if |s| >= 12 {
      var r := TopByte(s[0..8]);
      TopBits(s[0], r);
    }
  }

  lemma LowBit(b: seq<Byte>)
    requires |b| == 4
    ensures Get32(b) % 2 == b[3] % 2
  {
    assert Get16(b[2..]) == (b[2] as int) * 256 + b[3] as int;
  }

  type WireFrame = f: Frame | Encodable(f) witness SessionMeta(0, 0, false)

  function Stream(frames: seq<WireFrame>): seq<Byte> {
    if frames == [] then [] else Encode(frames[0]) + Stream(frames[1..])
  }

  /** Reading packets until the first outcome that is not one. */
  function ReadAll(s: seq<Byte>): (seq<Frame>, Outcome)
    decreases |s|
  {
    match Read(s)
    case Packet(f, rest) => var r := ReadAll(rest); ([f] + r.0, r.1)
    case o => ([], o)
  }

  /** Every stream of packets is read back as written, session metadata included. */
  lemma {:induction false} StreamReadsBack(frames: seq<WireFrame>)
    ensures ReadAll(Stream(frames)) == (frames, Truncated)
    decreases |frames|
  {
    if frames != [] {
      var s, more := Stream(frames), Stream(frames[1..]);
      ReadBack(frames[0], more);
      StreamReadsBack(frames[1..]);
      assert ReadAll(s) == ([frames[0]] + frames[1..], Truncated);
      assert frames == [frames[0]] + frames[1..];
    }
  }

  /** What forwardVideo is handed; header times become nanoseconds. */
  function ToVideo(f: Frame): VideoForwarder.Packet {
    match f
    case SessionMeta(_, _, _) => VideoForwarder.SessionMeta
    case Media(config, keyFrame, pts, payload) => VideoForwarder.Media(config, keyFrame, pts * 1000, payload)
  }

  /** Whatever bytes arrive, forwardVideo only ever sees well-formed packets. */
  lemma ReadWellFormed(s: seq<Byte>)
    ensures Read(s).Packet? ==> VideoForwarder.WellFormed(ToVideo(Read(s).f)) && Encodable(Read(s).f)
  {}
}
