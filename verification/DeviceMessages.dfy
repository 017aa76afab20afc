/** Device-to-client messages: an incremental, resynchronising parser. */
module DeviceMessages {
  import opened Common
  import opened Bytes

  const CLIPBOARD: Byte := 0
  const ACK_CLIPBOARD: Byte := 1
  const UHID_OUTPUT: Byte := 2

  datatype DeviceMsg =
    | Clipboard(text: seq<Byte>)
    | AckClipboard(sequence: U64)
    | UhidOutput(devID: U16, data: seq<Byte>)

  /** A slice whose end wrapped around below its start panics. */
  datatype Decoded = Message(m: DeviceMsg) | UnknownType(t: Byte) | SlicePanic

  /** Total length of the frame at the head of buf; None until its header is in. */
  function FrameLen(buf: seq<Byte>): Option<nat>
    requires buf != [] && buf[0] <= UHID_OUTPUT
  {
    if buf[0] == ACK_CLIPBOARD then Some(9)
    else if |buf| < 5 then None
    else if buf[0] == CLIPBOARD then Some(5 + Get32(buf[1..5]))
    else Some(5 + Get16(buf[3..5]))
  }

  /** decodeDeviceMessage on one whole frame.  Slice ends are computed in uint32
      and uint16. */
  function Decode(data: seq<Byte>): Decoded
    requires data != [] && (data[0] <= UHID_OUTPUT ==> FrameLen(data) == Some(|data|))
  {
    if data[0] == CLIPBOARD then
      var end := (5 + Get32(data[1..5])) % TWO32;
      if end < 5 then SlicePanic else Message(Clipboard(data[5..end]))
    else if data[0] == ACK_CLIPBOARD then
      Message(AckClipboard(Get64(data[1..9])))
    else if data[0] == UHID_OUTPUT then
      var end := (5 + Get16(data[3..5])) % TWO16;
      if end < 5 then SlicePanic else Message(UhidOutput(Get16(data[1..3]), data[5..end]))
    else UnknownType(data[0])
  }

  datatype Outcome =
    | Parsed(msgs: seq<DeviceMsg>, rest: seq<Byte>)
    | Failed(msgs: seq<DeviceMsg>, rest: seq<Byte>)
    | Panicked(msgs: seq<DeviceMsg>)

  function Prepend(msgs: seq<DeviceMsg>, o: Outcome): Outcome {
    match o
    case Parsed(ms, rest) => Parsed(msgs + ms, rest)
    case Failed(ms, rest) => Failed(msgs + ms, rest)
    case Panicked(ms) => Panicked(msgs + ms)
  }

  /** No whole frame stands at the head of buf yet. */
  predicate Incomplete(buf: seq<Byte>) {
    buf == [] ||
    (buf[0] <= UHID_OUTPUT && (FrameLen(buf).None? || |buf| < FrameLen(buf).value))
  }

  function DecodeHead(buf: seq<Byte>): Decoded
    requires !Incomplete(buf) && buf[0] <= UHID_OUTPUT
  {
    FrameLenLocal(buf, FrameLen(buf).value);
    Decode(buf[..FrameLen(buf).value])
  }

  function Parse(buf: seq<Byte>): Outcome
    decreases |buf|
  {
    if Incomplete(buf) then Parsed([], buf)
    else if buf[0] > UHID_OUTPUT then Parse(buf[1..])
    else
      match DecodeHead(buf)
      case Message(m) => Prepend([m], Parse(buf[FrameLen(buf).value..]))
      case UnknownType(_) => Failed([], buf)
      case SlicePanic => Panicked([])
  }

  /** The frame length depends on the frame's own bytes only. */
  lemma FrameLenLocal(buf: seq<Byte>, n: nat)
    requires buf != [] && buf[0] <= UHID_OUTPUT && FrameLen(buf) == Some(n) && n <= |buf|
    ensures buf[..n] != [] && buf[..n][0] == buf[0] && FrameLen(buf[..n]) == Some(n)
  {
    if buf[0] != ACK_CLIPBOARD {
      assert buf[..n][1..5] == buf[1..5] && buf[..n][3..5] == buf[3..5];
    }
  }

  lemma FrameLenExtend(buf: seq<Byte>, more: seq<Byte>)
    requires buf != [] && buf[0] <= UHID_OUTPUT && FrameLen(buf).Some?
    ensures FrameLen(buf + more) == FrameLen(buf)
  {
    if buf[0] != ACK_CLIPBOARD {
      assert (buf + more)[1..5] == buf[1..5] && (buf + more)[3..5] == buf[3..5];
    }
  }

  /** ParseDeviceMessages; a panic is an outcome of its own. */
  method ParseDeviceMessages(data: seq<Byte>) returns (o: Outcome)
    ensures o == Parse(data)
  {
    var msgs: seq<DeviceMsg> := [];
    var buf := data;
    assert Parse(data) == Prepend([], Parse(data));
    while |buf| > 0
      invariant Parse(data) == Prepend(msgs, Parse(buf))
      decreases |buf|
    {
      var msgType := buf[0];
      var msgLen := 9;
      if msgType == CLIPBOARD {
        if |buf| < 5 { return Parsed(msgs, buf); }
        msgLen := 5 + Get32(buf[1..5]);
      } else if msgType == UHID_OUTPUT {
        if |buf| < 5 { return Parsed(msgs, buf); }
        msgLen := 5 + Get16(buf[3..5]);
      } else if msgType != ACK_CLIPBOARD {
        buf := buf[1..];
        continue;
      }
      if |buf| < msgLen { return Parsed(msgs, buf); }
      FrameLenLocal(buf, msgLen);
      match Decode(buf[..msgLen])
      case Message(m) =>
        PrependTwice(msgs, [m], Parse(buf[msgLen..]));
        msgs := msgs + [m];
        buf := buf[msgLen..];
      case UnknownType(_) => return Failed(msgs, buf);
      case SlicePanic => return Panicked(msgs);
    }
    return Parsed(msgs, buf);
  }

  lemma PrependTwice(a: seq<DeviceMsg>, b: seq<DeviceMsg>, o: Outcome)
    ensures Prepend(a, Prepend(b, o)) == Prepend(a + b, o)
  {
    assert a + (b + o.msgs) == a + b + o.msgs;
  }

  /** A frame's slice panics exactly when its length is beyond the domain of the
      narrow arithmetic; the type is always known. */
  lemma DecodeDomain(frame: seq<Byte>)
    requires frame != [] && frame[0] <= UHID_OUTPUT && FrameLen(frame) == Some(|frame|)
    ensures !Decode(frame).UnknownType?
    ensures Decode(frame).SlicePanic? <==>
              (frame[0] == CLIPBOARD && |frame| - 5 > TWO32 - 6)
              || (frame[0] == UHID_OUTPUT && |frame| - 5 > 65530)
  {}

  /** The error return cannot be reached. */
  lemma {:induction false} NeverFails(buf: seq<Byte>)
    ensures !Parse(buf).Failed?
    decreases |buf|
  {
    if !Incomplete(buf) {
      if buf[0] > UHID_OUTPUT {
        NeverFails(buf[1..]);
      } else {
        var n := FrameLen(buf).value;
        FrameLenLocal(buf, n);
        DecodeDomain(buf[..n]);
        NeverFails(buf[n..]);
      }
    }
  }

  /** One step of the parser is not affected by what follows the frame. */
  lemma ParseHeadExtend(a: seq<Byte>, b: seq<Byte>)
    requires !Incomplete(a) && a[0] <= UHID_OUTPUT
    ensures var n := FrameLen(a).value;
            Parse(a + b) == match DecodeHead(a)
                            case Message(m) => Prepend([m], Parse(a[n..] + b))
                            case UnknownType(_) => Failed([], a + b)
                            case SlicePanic => Panicked([])
  {
    var n := FrameLen(a).value;
    FrameLenExtend(a, b);
    assert (a + b)[n..] == a[n..] + b && (a + b)[..n] == a[..n];
  }

  /** Parsing can stop anywhere and go on from the leftover. */
  lemma {:induction false} ParseConcat(a: seq<Byte>, b: seq<Byte>)
    ensures match Parse(a)
            case Parsed(msgs, rest) => Parse(a + b) == Prepend(msgs, Parse(rest + b))
            case Failed(_, _) => true
            case Panicked(msgs) => Parse(a + b) == Panicked(msgs)
    decreases |a|
  {
    if Incomplete(a) {
      assert Prepend([], Parse(a + b)) == Parse(a + b);
    } else if a[0] > UHID_OUTPUT {
      ParseConcat(a[1..], b);
      assert (a + b)[1..] == a[1..] + b;
    } else {
      var n := FrameLen(a).value;
      FrameLenLocal(a, n);
      ParseHeadExtend(a, b);
      ParseConcat(a[n..], b);
      if Decode(a[..n]).Message? && Parse(a[n..]).Parsed? {
        PrependTwice([Decode(a[..n]).m], Parse(a[n..]).msgs, Parse(Parse(a[n..]).rest + b));
      }
    }
  }

  // ---------------------------------------------------------------------
  // controlReader
  // ---------------------------------------------------------------------

  datatype Reader = Running(delivered: seq<DeviceMsg>, leftover: seq<Byte>) | Crashed(delivered: seq<DeviceMsg>)

  function Feed(r: Reader, chunk: seq<Byte>): Reader {
    match r
    case Crashed(_) => r
    case Running(delivered, leftover) =>
      match Parse(leftover + chunk)
      case Parsed(msgs, rest) => Running(delivered + msgs, rest)
      case Failed(_, _) => Running(delivered, [])
      case Panicked(_) => Crashed(delivered)
  }

  function FeedAll(chunks: seq<seq<Byte>>): Reader {
    if chunks == [] then Running([], []) else Feed(FeedAll(chunks[..|chunks| - 1]), chunks[|chunks| - 1])
  }

  function Concat(chunks: seq<seq<Byte>>): seq<Byte> {
    if chunks == [] then [] else Concat(chunks[..|chunks| - 1]) + chunks[|chunks| - 1]
  }

  class ControlReader {
    var leftover: seq<Byte>
    var ctrlCh: seq<DeviceMsg>
    var crashed: bool

    ghost function Abs(): Reader
      reads this
    {
      if crashed then Crashed(ctrlCh) else Running(ctrlCh, leftover)
    }

    constructor ()
      ensures Abs() == FeedAll([])
    {
      leftover, ctrlCh, crashed := [], [], false;
    }

    /** One successful read of the control socket. */
    method OnRead(chunk: seq<Byte>)
      requires !crashed
      modifies this
      ensures Abs() == Feed(old(Abs()), chunk)
    {
      var data := leftover + chunk;
      leftover := [];
      var o := ParseDeviceMessages(data);
      match o
      case Failed(_, _) => return;
      case Panicked(_) => crashed := true;
      case Parsed(msgs, remainder) =>
        ctrlCh := ctrlCh + msgs;
        if |remainder| > 0 { leftover := remainder; }
    }
  }

  /** Chunk invariance: however the stream is cut, the reader delivers the messages
      of one parse of the whole stream and keeps the same leftover; it crashes on a
      cut stream exactly when it would on the whole one, having delivered a prefix. */
  lemma {:induction false} ChunkInvariance(chunks: seq<seq<Byte>>)
    ensures match Parse(Concat(chunks))
            case Parsed(msgs, rest) => FeedAll(chunks) == Running(msgs, rest)
            case Panicked(msgs) => FeedAll(chunks).Crashed? && FeedAll(chunks).delivered <= msgs
            case Failed(_, _) => false
  {
    NeverFails(Concat(chunks));
    if chunks != [] {
      var n := |chunks| - 1;
      ChunkInvariance(chunks[..n]);
      NeverFails(Concat(chunks[..n]));
      ParseConcat(Concat(chunks[..n]), chunks[n]);
      var before := Parse(Concat(chunks[..n]));
      if before.Parsed? { NeverFails(before.rest + chunks[n]); }
    }
  }

  // ---------------------------------------------------------------------
  // The stream grammar
  // ---------------------------------------------------------------------

  predicate Encodable(m: DeviceMsg) {
    match m
    case Clipboard(text) => |text| <= TWO32 - 6
    case AckClipboard(_) => true
    case UhidOutput(_, data) => |data| <= 65530
  }

  function Encode(m: DeviceMsg): seq<Byte>
    requires Encodable(m)
  {
    match m
    case Clipboard(text) => [CLIPBOARD] + Put32(|text|) + text
    case AckClipboard(sequence) => [ACK_CLIPBOARD] + Put64(sequence)
    case UhidOutput(devID, data) => [UHID_OUTPUT] + Put16(devID) + Put16(|data|) + data
  }

  /** A stream is noise bytes and encoded messages in any order. */
  datatype AnyItem = Noise(b: Byte) | Frame(m: DeviceMsg)

  predicate Proper(i: AnyItem) {
    match i case Noise(b) => b > UHID_OUTPUT case Frame(m) => Encodable(m)
  }

  type Item = i: AnyItem | Proper(i) witness Noise(3)

  function ItemBytes(i: Item): seq<Byte> {
    match i case Noise(b) => [b] case Frame(m) => Encode(m)
  }

  function ItemMessages(i: Item): seq<DeviceMsg> {
    match i case Noise(_) => [] case Frame(m) => [m]
  }

  function Stream(items: seq<Item>): seq<Byte> {
    if items == [] then [] else ItemBytes(items[0]) + Stream(items[1..])
  }

  function MessagesOf(items: seq<Item>): seq<DeviceMsg> {
    if items == [] then [] else ItemMessages(items[0]) + MessagesOf(items[1..])
  }

  lemma EncodeClipboard(text: seq<Byte>)
    requires Encodable(Clipboard(text))
    ensures var f := Encode(Clipboard(text)); FrameLen(f) == Some(|f|) && Decode(f) == Message(Clipboard(text))
  {
    var f := Encode(Clipboard(text));
    Field(f, [CLIPBOARD] + Put32(|text|), text);
    Field(f, [CLIPBOARD], Put32(|text|));
  }

  lemma UhidFields(devID: U16, data: seq<Byte>)
    requires Encodable(UhidOutput(devID, data))
    ensures var f := Encode(UhidOutput(devID, data));
            && |f| == 5 + |data| && f[0] == UHID_OUTPUT
            && f[1..3] == Put16(devID) && f[3..5] == Put16(|data|) && f[5..5 + |data|] == data
  {
    var f := Encode(UhidOutput(devID, data));
    Field(f, [UHID_OUTPUT] + Put16(devID) + Put16(|data|), data);
    Field(f, [UHID_OUTPUT] + Put16(devID), Put16(|data|));
    Field(f, [UHID_OUTPUT], Put16(devID));
  }

  lemma EncodeUhid(devID: U16, data: seq<Byte>)
    requires Encodable(UhidOutput(devID, data))
    ensures var f := Encode(UhidOutput(devID, data));
            FrameLen(f) == Some(|f|) && Decode(f) == Message(UhidOutput(devID, data))
  {
    UhidFields(devID, data);
  }

  lemma DecodeEncode(m: DeviceMsg, more: seq<Byte>)
    requires Encodable(m)
    ensures var f := Encode(m);
            && f != [] && f[0] <= UHID_OUTPUT
            && FrameLen(f) == Some(|f|) && FrameLen(f + more) == Some(|f|)
            && Decode(f) == Message(m)
  {
    match m
    case Clipboard(text) => EncodeClipboard(text);
    case AckClipboard(sequence) => assert Encode(m)[1..9] == Put64(sequence);
    case UhidOutput(devID, data) => EncodeUhid(devID, data);
    FrameLenExtend(Encode(m), more);
  }

  lemma ParseItem(i: Item, more: seq<Byte>)
    ensures Parse(ItemBytes(i) + more) == Prepend(ItemMessages(i), Parse(more))
  {
    var s := ItemBytes(i) + more;
    match i
    case Noise(b) =>
      assert s[1..] == more;
      assert Prepend([], Parse(more)) == Parse(more);
    case Frame(m) =>
      DecodeEncode(m, more);
      var f := Encode(m);
      assert s[..|f|] == f && s[|f|..] == more;
  }

  /** Messages and noise parse back exactly, whatever incomplete frame follows. */
  lemma {:induction false} ParseStream(items: seq<Item>, tail: seq<Byte>)
    requires Incomplete(tail)
    ensures Parse(Stream(items) + tail) == Parsed(MessagesOf(items), tail)
    decreases |items|
  {
    if items == [] {
      assert Stream(items) + tail == tail;
    } else {
      var head, more := ItemBytes(items[0]), Stream(items[1..]);
      assert (head + more) + tail == head + (more + tail);
      ParseItem(items[0], more + tail);
      ParseStream(items[1..], tail);
    }
  }

  lemma ClipboardEncodes(f: seq<Byte>)
    requires f != [] && f[0] == CLIPBOARD && FrameLen(f) == Some(|f|) && Decode(f).Message?
    ensures Encodable(Decode(f).m) && Encode(Decode(f).m) == f
  {
    DecodeDomain(f);
    Put32Get32(f[1..5]);
    assert f[5..|f|] == f[5..];
    assert f == [CLIPBOARD] + f[1..5] + f[5..];
  }

  lemma UhidEncodes(f: seq<Byte>)
    requires f != [] && f[0] == UHID_OUTPUT && FrameLen(f) == Some(|f|) && Decode(f).Message?
    ensures Encodable(Decode(f).m) && Encode(Decode(f).m) == f
  {
    DecodeDomain(f);
    Put16Get16(f[1..3]);
    Put16Get16(f[3..5]);
    assert f[5..|f|] == f[5..];
    assert f == [UHID_OUTPUT] + f[1..3] + f[3..5] + f[5..];
  }

  lemma EncodeDecode(f: seq<Byte>)
    requires f != [] && f[0] <= UHID_OUTPUT && FrameLen(f) == Some(|f|) && Decode(f).Message?
    ensures Encodable(Decode(f).m) && Encode(Decode(f).m) == f
  {
    if f[0] == CLIPBOARD {
      ClipboardEncodes(f);
    } else if f[0] == ACK_CLIPBOARD {
      Put64Get64(f[1..9]);
      assert f == [ACK_CLIPBOARD] + f[1..9];
    } else {
      UhidEncodes(f);
    }
  }

  /** The first item of a buffer whose head is complete. */
  lemma HeadItem(buf: seq<Byte>) returns (i: Item, rest: seq<Byte>)
    requires !Incomplete(buf) && Parse(buf).Parsed?
    ensures buf == ItemBytes(i) + rest && |rest| < |buf| && Parse(rest).Parsed?
    ensures Parse(buf) == Parsed(ItemMessages(i) + Parse(rest).msgs, Parse(rest).rest)
  {
    if buf[0] > UHID_OUTPUT {
      i, rest := Noise(buf[0]), buf[1..];
    } else {
      var n := FrameLen(buf).value;
      FrameLenLocal(buf, n);
      DecodeDomain(buf[..n]);
      EncodeDecode(buf[..n]);
      i, rest := Frame(Decode(buf[..n]).m), buf[n..];
    }
    assert buf == ItemBytes(i) + rest;
    ParseItem(i, rest);
  }

  lemma Regroup(a: seq<Byte>, b: seq<Byte>, c: seq<Byte>)
    ensures a + (b + c) == (a + b) + c
  {}

  lemma StreamCons(i: Item, more: seq<Item>)
    ensures Stream([i] + more) == ItemBytes(i) + Stream(more)
    ensures MessagesOf([i] + more) == ItemMessages(i) + MessagesOf(more)
  {
    assert ([i] + more)[1..] == more;
  }

  /** Conversely, whatever the parser reports is what the stream is made of. */
  lemma {:induction false} ParseExplains(buf: seq<Byte>) returns (items: seq<Item>)
    requires Parse(buf).Parsed?
    ensures Incomplete(Parse(buf).rest)
    ensures buf == Stream(items) + Parse(buf).rest
    ensures MessagesOf(items) == Parse(buf).msgs
    decreases |buf|
  {
    if Incomplete(buf) {
      items := [];
    } else {
      var i, rest := HeadItem(buf);
      var more := ParseExplains(rest);
      items := [i] + more;
      StreamCons(i, more);
      Regroup(ItemBytes(i), Stream(more), Parse(rest).rest);
    }
  }
}
