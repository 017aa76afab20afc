/** Client-to-device control messages: builders, and a reference decoder. */
module ControlMessages {
  import opened Common
  import opened Bytes
  import opened Utf8Text

  const MAX_CLIPBOARD := 262130
  const MAX_NAME := 255

  /** A builder call.  Touch pressure and scroll distances are the scaled 16-bit
      values that go on the wire. */
  datatype Command =
    | InjectKeycode(action: U32, keycode: U32, repetition: U32, metastate: U32)
    | InjectText(text: seq<Byte>)
    | InjectTouch(touch: Byte, pointerID: U64, x: U32, y: U32, width: U16, height: U16, pressure: U16,
                  actionButton: U32, buttons: U32)
    | InjectScroll(x: U32, y: U32, width: U16, height: U16, hscroll: U16, vscroll: U16, buttons: U32)
    | BackOrScreenOn(key: Byte)
    | ExpandNotificationPanel
    | ExpandSettingsPanel
    | CollapsePanels
    | GetClipboard(copyKey: Byte)
    | SetClipboard(sequence: U64, paste: bool, text: seq<Byte>)
    | SetDisplayPower(on: bool)
    | RotateDevice
    | UhidCreate(id: U16, vendor: U16, product: U16, name: seq<Byte>, reportDesc: seq<Byte>)
    | UhidInput(id: U16, data: seq<Byte>)
    | UhidDestroy(id: U16)
    | OpenHardKeyboardSettings
    | StartApp(name: seq<Byte>)
    | ResetVideo
    | CameraSetTorch(on: bool)
    | CameraZoomIn
    | CameraZoomOut
    | ResizeDisplay(width: U16, height: U16)
    | StartAudio
    | RequestKeyframe
    | ChangeBitrate(bitrate: int)

  function Cut(s: seq<Byte>, n: nat): seq<Byte> {
    if |s| > n then s[..n] else s
  }

  function Flag(b: bool): Byte {
    if b then 1 else 0
  }

  /** What a call asks the device to do, after the builders' truncations. */
  function Sent(c: Command): Command {
    match c
    case InjectKeycode(action, keycode, repetition, metastate) =>
      InjectKeycode(action % 256, keycode, repetition, metastate)
    case InjectText(text) => InjectText(Truncate(text))
    case SetClipboard(sequence, paste, text) => SetClipboard(sequence, paste, Cut(text, MAX_CLIPBOARD))
    case UhidCreate(id, vendor, product, name, reportDesc) =>
      UhidCreate(id, vendor, product, Cut(name, MAX_NAME), reportDesc)
    case StartApp(name) => StartApp(Cut(name, MAX_NAME))
    case ChangeBitrate(bitrate) => ChangeBitrate(bitrate % TWO32)
    case _ => c
  }

  /** The calls whose message the device can delimit. */
  predicate Delimited(c: Command) {
    !c.UhidInput? && (c.UhidCreate? ==> |c.reportDesc| < TWO16)
  }

  function TruncateBound(text: seq<Byte>): (r: seq<Byte>)
    ensures r == Truncate(text) && |r| <= MAX_TEXT
  {
    TruncateText300(text); Truncate(text)
  }

  /** Where on which screen: 12 bytes. */
  function Position(x: U32, y: U32, width: U16, height: U16): seq<Byte> {
    Put32(x) + Put32(y) + Put16(width) + Put16(height)
  }

  /** A 32-bit length and that many bytes. */
  function Sized32(s: seq<Byte>): seq<Byte>
    requires |s| < TWO32
  {
    Put32(|s|) + s
  }

  function UhidIds(id: U16, vendor: U16, product: U16): seq<Byte> {
    Put16(id) + Put16(vendor) + Put16(product)
  }

  /** Message layouts, field by field. */
  function Wire(c: Command): seq<Byte> {
    match c
    case InjectKeycode(action, keycode, repetition, metastate) =>
      [0x00, action % 256] + Put32(keycode) + Put32(repetition) + Put32(metastate)
    case InjectText(text) => [0x01] + Sized32(TruncateBound(text))
    case InjectTouch(action, pointerID, x, y, width, height, pressure, actionButton, buttons) =>
      [0x02, action] + Put64(pointerID) + Position(x, y, width, height)
      + Put16(pressure) + Put32(actionButton) + Put32(buttons)
    case InjectScroll(x, y, width, height, hscroll, vscroll, buttons) =>
      [0x03] + Position(x, y, width, height) + Put16(hscroll) + Put16(vscroll) + Put32(buttons)
    case BackOrScreenOn(action) => [0x04, action]
    case ExpandNotificationPanel => [0x05]
    case ExpandSettingsPanel => [0x06]
    case CollapsePanels => [0x07]
    case GetClipboard(copyKey) => [0x08, copyKey]
    case SetClipboard(sequence, paste, text) =>
      [0x09] + Put64(sequence) + [Flag(paste)] + Sized32(Cut(text, MAX_CLIPBOARD))
    case SetDisplayPower(on) => [0x0A, Flag(on)]
    case RotateDevice => [0x0B]
    case UhidCreate(id, vendor, product, name, reportDesc) =>
      [0x0C] + UhidIds(id, vendor, product) + [|Cut(name, MAX_NAME)|] + Cut(name, MAX_NAME)
      + Put16(|reportDesc| % TWO16) + reportDesc
    case UhidInput(id, data) => [0x0D] + Put16(id) + Put16(|data| % TWO16) + data
    case UhidDestroy(id) => [0x0E] + Put16(id)
    case OpenHardKeyboardSettings => [0x0F]
    case StartApp(name) => [0x10] + [|Cut(name, MAX_NAME)|] + Cut(name, MAX_NAME)
    case ResetVideo => [0x11]
    case CameraSetTorch(on) => [0x12, Flag(on)]
    case CameraZoomIn => [0x13]
    case CameraZoomOut => [0x14]
    case ResizeDisplay(width, height) => [0x15] + Put16(width) + Put16(height)
    case StartAudio => [0x16]
    case RequestKeyframe => [0x17]
    case ChangeBitrate(bitrate) => [0x18] + Put32(bitrate % TWO32)
  }

  /** Long texts on the wire: a clipboard text keeps at most 262130 bytes, a name at most
      255, and a report descriptor all of its own, whatever its length field says. */
  lemma TextsOnWire(sequence: U64, paste: bool, id: U16, vendor: U16, product: U16, text: seq<Byte>,
                    reportDesc: seq<Byte>)
    ensures var w, n := Wire(SetClipboard(sequence, paste, text)), Min(|text|, 262130);
            |w| == 14 + n && w[9] == (if paste then 1 else 0) && Get32(w[10..14]) == n && w[14..] == text[..n]
    ensures var w, n := Wire(StartApp(text)), Min(|text|, 255);
            |w| == 2 + n && w[1] == n && w[2..] == text[..n]
    ensures var w, n := Wire(UhidCreate(id, vendor, product, text, reportDesc)), Min(|text|, 255);
            |w| == 10 + n + |reportDesc| && w[7] == n && w[8..8 + n] == text[..n]
            && Get16(w[8 + n..10 + n]) == |reportDesc| % 0x1_0000 && w[10 + n..] == reportDesc
  {
    ClipboardOnWire(sequence, paste, text);
    UhidOnWire(id, vendor, product, text, reportDesc);
  }

  lemma ClipboardOnWire(sequence: U64, paste: bool, text: seq<Byte>)
    ensures var w, n := Wire(SetClipboard(sequence, paste, text)), Min(|text|, 262130);
            |w| == 14 + n && w[9] == (if paste then 1 else 0) && Get32(w[10..14]) == n && w[14..] == text[..n]
  {
    var w, n := Wire(SetClipboard(sequence, paste, text)), Min(|text|, 262130);
    assert w == [0x09] + Put64(sequence) + [Flag(paste)] + Put32(n) + text[..n];
    assert w[10..14] == Put32(n);
  }

  lemma UhidOnWire(id: U16, vendor: U16, product: U16, name: seq<Byte>, reportDesc: seq<Byte>)
    ensures var w, n := Wire(UhidCreate(id, vendor, product, name, reportDesc)), Min(|name|, 255);
            |w| == 10 + n + |reportDesc| && w[7] == n && w[8..8 + n] == name[..n]
            && Get16(w[8 + n..10 + n]) == |reportDesc| % 0x1_0000 && w[10 + n..] == reportDesc
  {
    var w, n := Wire(UhidCreate(id, vendor, product, name, reportDesc)), Min(|name|, 255);
    var ids, size := [0x0C] + UhidIds(id, vendor, product), Put16(|reportDesc| % TWO16);
    assert |ids| == 7 && w == ids + [n] + name[..n] + size + reportDesc;
    assert w[8 + n..10 + n] == size;
  }

  // ---------------------------------------------------------------------
  // The device's side: a decoder that reads one message off a stream
  // ---------------------------------------------------------------------

  datatype Read = Read(c: Command, rest: seq<Byte>)

  function Bare(buf: seq<Byte>, c: Command): Option<Read>
    requires buf != []
  {
    Some(Read(c, buf[1..]))
  }

  function DecodeUhid(buf: seq<Byte>): Option<Read> {
    if |buf| < 8 then None
    else
      var mid := 8 + buf[7] as int;
      if |buf| < mid + 2 || |buf| < mid + 2 + Get16(buf[mid..mid + 2]) then None
      else
        var end := mid + 2 + Get16(buf[mid..mid + 2]);
        Some(Read(UhidCreate(Get16(buf[1..3]), Get16(buf[3..5]), Get16(buf[5..7]), buf[8..mid], buf[mid + 2..end]),
                  buf[end..]))
  }

  function DecodeSized(buf: seq<Byte>): Option<Read>
    requires buf != []
  {
    if buf[0] == 0x01 then
      if |buf| < 5 || |buf| < 5 + Get32(buf[1..5]) then None
      else var end := 5 + Get32(buf[1..5]); Some(Read(InjectText(buf[5..end]), buf[end..]))
    else if buf[0] == 0x09 then
      if |buf| < 14 || |buf| < 14 + Get32(buf[10..14]) then None
      else
        var end := 14 + Get32(buf[10..14]);
        Some(Read(SetClipboard(Get64(buf[1..9]), buf[9] != 0, buf[14..end]), buf[end..]))
    else if buf[0] == 0x0C then DecodeUhid(buf)
    else if buf[0] == 0x0D then
      if |buf| < 5 || |buf| < 5 + Get16(buf[3..5]) then None
      else var end := 5 + Get16(buf[3..5]); Some(Read(UhidInput(Get16(buf[1..3]), buf[5..end]), buf[end..]))
    else if buf[0] == 0x10 then
      if |buf| < 2 || |buf| < 2 + buf[1] as int then None
      else var end := 2 + buf[1] as int; Some(Read(StartApp(buf[2..end]), buf[end..]))
    else None
  }

  function DecodeFixed(buf: seq<Byte>): Option<Read>
    requires buf != []
  {
    if buf[0] == 0x00 then
      if |buf| < 14 then None
      else Some(Read(InjectKeycode(buf[1], Get32(buf[2..6]), Get32(buf[6..10]), Get32(buf[10..14])), buf[14..]))
    else if buf[0] == 0x02 then
      if |buf| < 32 then None
      else Some(Read(InjectTouch(buf[1], Get64(buf[2..10]), Get32(buf[10..14]), Get32(buf[14..18]),
                                 Get16(buf[18..20]), Get16(buf[20..22]), Get16(buf[22..24]),
                                 Get32(buf[24..28]), Get32(buf[28..32])), buf[32..]))
    else if buf[0] == 0x03 then
      if |buf| < 21 then None
      else Some(Read(InjectScroll(Get32(buf[1..5]), Get32(buf[5..9]), Get16(buf[9..11]), Get16(buf[11..13]),
                                  Get16(buf[13..15]), Get16(buf[15..17]), Get32(buf[17..21])), buf[21..]))
    else if buf[0] == 0x04 then if |buf| < 2 then None else Some(Read(BackOrScreenOn(buf[1]), buf[2..]))
    else if buf[0] == 0x08 then if |buf| < 2 then None else Some(Read(GetClipboard(buf[1]), buf[2..]))
    else if buf[0] == 0x0A then if |buf| < 2 then None else Some(Read(SetDisplayPower(buf[1] != 0), buf[2..]))
    else if buf[0] == 0x0E then if |buf| < 3 then None else Some(Read(UhidDestroy(Get16(buf[1..3])), buf[3..]))
    else if buf[0] == 0x12 then if |buf| < 2 then None else Some(Read(CameraSetTorch(buf[1] != 0), buf[2..]))
    else if buf[0] == 0x15 then
      if |buf| < 5 then None else Some(Read(ResizeDisplay(Get16(buf[1..3]), Get16(buf[3..5])), buf[5..]))
    else if buf[0] == 0x18 then if |buf| < 5 then None else Some(Read(ChangeBitrate(Get32(buf[1..5])), buf[5..]))
    else None
  }

  predicate Sized(t: Byte) {
    t == 0x01 || t == 0x09 || t == 0x0C || t == 0x0D || t == 0x10
  }

  function Decode(buf: seq<Byte>): Option<Read> {
    if buf == [] then None
    else if Sized(buf[0]) then DecodeSized(buf)
    else if buf[0] == 0x05 then Bare(buf, ExpandNotificationPanel)
    else if buf[0] == 0x06 then Bare(buf, ExpandSettingsPanel)
    else if buf[0] == 0x07 then Bare(buf, CollapsePanels)
    else if buf[0] == 0x0B then Bare(buf, RotateDevice)
    else if buf[0] == 0x0F then Bare(buf, OpenHardKeyboardSettings)
    else if buf[0] == 0x11 then Bare(buf, ResetVideo)
    else if buf[0] == 0x13 then Bare(buf, CameraZoomIn)
    else if buf[0] == 0x14 then Bare(buf, CameraZoomOut)
    else if buf[0] == 0x16 then Bare(buf, StartAudio)
    else if buf[0] == 0x17 then Bare(buf, RequestKeyframe)
    else DecodeFixed(buf)
  }

  /** Every message of the stream, None when it does not end on a message boundary. */
  function DecodeAll(buf: seq<Byte>): Option<seq<Command>>
    decreases |buf|
  {
    if buf == [] then Some([])
    else match Decode(buf)
      case None => None
      case Some(r) =>
        if |r.rest| >= |buf| then None
        else match DecodeAll(r.rest)
          case None => None
          case Some(cs) => Some([r.c] + cs)
  }

  // ---------------------------------------------------------------------
  // One message at a time
  // ---------------------------------------------------------------------

  lemma PositionFields(s: seq<Byte>, w: seq<Byte>, x: U32, y: U32, width: U16, height: U16)
    requires w + Position(x, y, width, height) <= s
    ensures var n := |w|;
            && w <= s
            && s[n..n + 4] == Put32(x) && s[n + 4..n + 8] == Put32(y)
            && s[n + 8..n + 10] == Put16(width) && s[n + 10..n + 12] == Put16(height)
  {
    var w1 := w + Put32(x);
    var w2 := w1 + Put32(y);
    var w3 := w2 + Put16(width);
    assert w + Position(x, y, width, height) == w3 + Put16(height);
    Field(s, w3, Put16(height));
    Field(s, w2, Put16(width));
    Field(s, w1, Put32(y));
    Field(s, w, Put32(x));
  }

  lemma DecodeText(c: Command, more: seq<Byte>)
    requires c.InjectText? || c.StartApp?
    ensures Decode(Wire(c) + more) == Some(Read(Sent(c), more))
  {
    var s := Wire(c) + more;
    match c
    case InjectText(text) =>
      var t := TruncateBound(text);
      assert Wire(c) == [0x01] + Put32(|t|) + t;
      Field(s, [0x01] + Put32(|t|), t);
      Field(s, [0x01], Put32(|t|));
      Field(s, Wire(c), more);
    case StartApp(name) =>
      var t := Cut(name, MAX_NAME);
      Field(s, [0x10, |t|], t);
      Field(s, Wire(c), more);
  }

  lemma DecodeSetClipboard(c: Command, more: seq<Byte>)
    requires c.SetClipboard?
    ensures Decode(Wire(c) + more) == Some(Read(Sent(c), more))
  {
    var t := Cut(c.text, MAX_CLIPBOARD);
    var w1 := [0x09] + Put64(c.sequence);
    var w2 := w1 + [Flag(c.paste)];
    var w3 := w2 + Put32(|t|);
    var s := Wire(c) + more;
    assert Wire(c) == w3 + t;
    Field(s, Wire(c), more);
    Field(s, w3, t);
    Field(s, w2, Put32(|t|));
    Field(s, w1, [Flag(c.paste)]);
    Field(s, [0x09], Put64(c.sequence));
    assert s[9] == s[9..10][0];
    assert Decode(s) == DecodeSized(s);
  }

  /** The head of a UHID device message: ids and name. */
  function UhidHead(c: Command): seq<Byte>
    requires c.UhidCreate?
  {
    [0x0C] + UhidIds(c.id, c.vendor, c.product) + [|Cut(c.name, MAX_NAME)|] + Cut(c.name, MAX_NAME)
  }

  lemma UhidIdFields(s: seq<Byte>, id: U16, vendor: U16, product: U16)
    requires [0x0C] + UhidIds(id, vendor, product) <= s
    ensures s[0] == 0x0C && s[1..3] == Put16(id) && s[3..5] == Put16(vendor) && s[5..7] == Put16(product)
  {
    var w1 := [0x0C] + Put16(id);
    var w2 := w1 + Put16(vendor);
    assert [0x0C] + UhidIds(id, vendor, product) == w2 + Put16(product);
    Field(s, w2, Put16(product));
    Field(s, w1, Put16(vendor));
    Field(s, [0x0C], Put16(id));
  }

  lemma UhidNameFields(s: seq<Byte>, ids: seq<Byte>, t: seq<Byte>)
    requires |ids| == 7 && |t| < 256 && ids + [|t|] + t <= s
    ensures ids <= s && s[7] == |t| && s[8..8 + |t|] == t
  {
    Field(s, ids + [|t|], t);
    Field(s, ids, [|t|]);
    assert s[7] == s[7..8][0];
  }

  lemma UhidTailFields(s: seq<Byte>, head: seq<Byte>, n: U16, tail: seq<Byte>)
    requires s == head + Put16(n) + tail && n <= |tail|
    ensures var mid := |head|;
            && |s| >= mid + 2 + n && s[mid..mid + 2] == Put16(n)
            && s[mid + 2..mid + 2 + n] == tail[..n] && s[mid + 2 + n..] == tail[n..]
  {
    var size := Put16(n);
    Field(s, head, size);
    assert s == (head + size + tail[..n]) + tail[n..];
    Field(s, head + size + tail[..n], tail[n..]);
    Field(s, head + size, tail[..n]);
  }

  lemma UhidFields(c: Command, s: seq<Byte>, n: U16, tail: seq<Byte>)
    requires c.UhidCreate? && s == UhidHead(c) + Put16(n) + tail && n <= |tail|
    ensures var t := Cut(c.name, MAX_NAME);
            var mid := 8 + |t|;
            && |s| >= mid + 2 + n
            && s[0] == 0x0C && s[1..3] == Put16(c.id) && s[3..5] == Put16(c.vendor) && s[5..7] == Put16(c.product)
            && s[7] == |t| && s[8..mid] == t && s[mid..mid + 2] == Put16(n)
            && s[mid + 2..mid + 2 + n] == tail[..n] && s[mid + 2 + n..] == tail[n..]
  {
    var ids, t := [0x0C] + UhidIds(c.id, c.vendor, c.product), Cut(c.name, MAX_NAME);
    UhidTailFields(s, UhidHead(c), n, tail);
    UhidNameFields(s, ids, t);
    UhidIdFields(s, c.id, c.vendor, c.product);
  }

  lemma UhidWire(c: Command, more: seq<Byte>)
    requires c.UhidCreate?
    ensures Wire(c) + more == UhidHead(c) + Put16(|c.reportDesc| % TWO16) + (c.reportDesc + more)
  {}

  lemma UhidReads(c: Command, s: seq<Byte>, n: U16, tail: seq<Byte>)
    requires c.UhidCreate? && s == UhidHead(c) + Put16(n) + tail && n <= |tail|
    ensures Decode(s) == Some(Read(UhidCreate(c.id, c.vendor, c.product, Cut(c.name, MAX_NAME), tail[..n]), tail[n..]))
  {
    UhidFields(c, s, n, tail);
    assert Decode(s) == DecodeUhid(s);
  }

  /** What the decoder makes of a UHID device message. */
  lemma UhidCreateReads(c: Command, more: seq<Byte>)
    requires c.UhidCreate?
    ensures var n, tail := |c.reportDesc| % TWO16, c.reportDesc + more;
            && n <= |tail|
            && Decode(Wire(c) + more)
               == Some(Read(UhidCreate(c.id, c.vendor, c.product, Cut(c.name, MAX_NAME), tail[..n]), tail[n..]))
  {
    UhidWire(c, more);
    UhidReads(c, Wire(c) + more, |c.reportDesc| % TWO16, c.reportDesc + more);
  }

  /** A UHID device is delimited exactly when its descriptor's length fits 16 bits. */
  lemma DecodeUhidCreate(c: Command, more: seq<Byte>)
    requires c.UhidCreate?
    ensures Decode(Wire(c) + more) == Some(Read(Sent(c), more)) <==> Delimited(c)
  {
    UhidCreateReads(c, more);
    var n, tail := |c.reportDesc| % TWO16, c.reportDesc + more;
    assert |tail[..n]| == n;
    if Delimited(c) {
      assert tail[..n] == c.reportDesc && tail[n..] == more;
    }
  }

  lemma TouchFields(c: Command, s: seq<Byte>)
    requires c.InjectTouch? && Wire(c) <= s
    ensures s[0] == 0x02 && s[1] == c.touch && s[2..10] == Put64(c.pointerID)
    ensures s[10..14] == Put32(c.x) && s[14..18] == Put32(c.y)
    ensures s[18..20] == Put16(c.width) && s[20..22] == Put16(c.height)
    ensures s[22..24] == Put16(c.pressure) && s[24..28] == Put32(c.actionButton) && s[28..32] == Put32(c.buttons)
  {
    var w1 := [0x02, c.touch] + Put64(c.pointerID);
    var w2 := w1 + Position(c.x, c.y, c.width, c.height);
    var w3 := w2 + Put16(c.pressure);
    var w4 := w3 + Put32(c.actionButton);
    assert Wire(c) == w4 + Put32(c.buttons);
    Field(s, w4, Put32(c.buttons));
    Field(s, w3, Put32(c.actionButton));
    Field(s, w2, Put16(c.pressure));
    PositionFields(s, w1, c.x, c.y, c.width, c.height);
    Field(s, [0x02, c.touch], Put64(c.pointerID));
  }

  lemma DecodeTouch(c: Command, more: seq<Byte>)
    requires c.InjectTouch?
    ensures Decode(Wire(c) + more) == Some(Read(Sent(c), more))
  {
    var s := Wire(c) + more;
    TouchFields(c, s);
    Field(s, Wire(c), more);
    assert Decode(s) == DecodeFixed(s);
  }

  lemma DecodeScroll(c: Command, more: seq<Byte>)
    requires c.InjectScroll?
    ensures Decode(Wire(c) + more) == Some(Read(Sent(c), more))
  {
    var s := Wire(c) + more;
    var w1 := [0x03] + Position(c.x, c.y, c.width, c.height);
    var w2 := w1 + Put16(c.hscroll);
    var w3 := w2 + Put16(c.vscroll);
    assert Wire(c) == w3 + Put32(c.buttons);
    Field(s, Wire(c), more);
    Field(s, w3, Put32(c.buttons));
    Field(s, w2, Put16(c.vscroll));
    Field(s, w1, Put16(c.hscroll));
    PositionFields(s, [0x03], c.x, c.y, c.width, c.height);
    assert Decode(s) == DecodeFixed(s);
  }

  lemma DecodeKeycode(c: Command, more: seq<Byte>)
    requires c.InjectKeycode?
    ensures Decode(Wire(c) + more) == Some(Read(Sent(c), more))
  {
    var s := Wire(c) + more;
    var w1 := [0x00, c.action % 256] + Put32(c.keycode);
    var w2 := w1 + Put32(c.repetition);
    assert Wire(c) == w2 + Put32(c.metastate);
    Field(s, Wire(c), more);
    Field(s, w2, Put32(c.metastate));
    Field(s, w1, Put32(c.repetition));
    Field(s, [0x00, c.action % 256], Put32(c.keycode));
    assert Decode(s) == DecodeFixed(s);
  }

  lemma DecodeUhidDestroy(c: Command, more: seq<Byte>)
    requires c.UhidDestroy?
    ensures Decode(Wire(c) + more) == Some(Read(Sent(c), more))
  {
    var s := Wire(c) + more;
    Field(s, Wire(c), more);
    Field(s, [0x0E], Put16(c.id));
    assert Decode(s) == DecodeFixed(s);
  }

  lemma DecodeResizeDisplay(c: Command, more: seq<Byte>)
    requires c.ResizeDisplay?
    ensures Decode(Wire(c) + more) == Some(Read(Sent(c), more))
  {
    var s := Wire(c) + more;
    Field(s, Wire(c), more);
    Field(s, [0x15] + Put16(c.width), Put16(c.height));
    Field(s, [0x15], Put16(c.width));
    assert Decode(s) == DecodeFixed(s);
  }

  lemma DecodeChangeBitrate(c: Command, more: seq<Byte>)
    requires c.ChangeBitrate?
    ensures Decode(Wire(c) + more) == Some(Read(Sent(c), more))
  {
    var s := Wire(c) + more;
    Field(s, Wire(c), more);
    Field(s, [0x18], Put32(c.bitrate % TWO32));
    assert Decode(s) == DecodeFixed(s);
  }

  lemma DecodeLiteral(c: Command, more: seq<Byte>)
    requires Delimited(c) && |Wire(c)| <= 2 && !c.StartApp?
    ensures Decode(Wire(c) + more) == Some(Read(Sent(c), more))
  {
    assert (Wire(c) + more)[|Wire(c)|..] == more;
  }

  /** Every delimited message is read back, and nothing beyond it. */
  lemma DecodeWire(c: Command, more: seq<Byte>)
    requires Delimited(c)
    ensures Decode(Wire(c) + more) == Some(Read(Sent(c), more))
    ensures |Wire(c)| > 0
  {
    match c
    case InjectText(_) => DecodeText(c, more);
    case StartApp(_) => DecodeText(c, more);
    case SetClipboard(_, _, _) => DecodeSetClipboard(c, more);
    case UhidCreate(_, _, _, _, _) => DecodeUhidCreate(c, more);
    case InjectTouch(_, _, _, _, _, _, _, _, _) => DecodeTouch(c, more);
    case InjectScroll(_, _, _, _, _, _, _) => DecodeScroll(c, more);
    case InjectKeycode(_, _, _, _) => DecodeKeycode(c, more);
    case UhidDestroy(_) => DecodeUhidDestroy(c, more);
    case ResizeDisplay(_, _) => DecodeResizeDisplay(c, more);
    case ChangeBitrate(_) => DecodeChangeBitrate(c, more);
    case _ => DecodeLiteral(c, more);
  }

  // ---------------------------------------------------------------------
  // BuildUhidInput
  // ---------------------------------------------------------------------

  /** The buffer is one byte short: without data even the length field does not fit
      (a panic), otherwise the last data byte is lost. */
  function UhidInputBytes(id: U16, data: seq<Byte>): Option<seq<Byte>> {
    if data == [] then None else Some(Wire(UhidInput(id, data))[..4 + |data|])
  }

  /** The message up to the report's data. */
  function UhidInputHead(id: U16, n: nat): seq<Byte> {
    [0x0D] + Put16(id) + Put16(n % TWO16)
  }

  lemma UhidInputShape(id: U16, data: seq<Byte>)
    requires data != []
    ensures UhidInputBytes(id, data).value == UhidInputHead(id, |data|) + data[..|data| - 1]
  {
    var head := UhidInputHead(id, |data|);
    assert Wire(UhidInput(id, data)) == head + data;
    assert (head + data)[..4 + |data|] == head + data[..|data| - 1];
  }

  lemma UhidInputFields(s: seq<Byte>, id: U16, n: nat)
    requires UhidInputHead(id, n) <= s
    ensures s[0] == 0x0D && s[1..3] == Put16(id) && s[3..5] == Put16(n % TWO16)
  {
    Field(s, [0x0D] + Put16(id), Put16(n % TWO16));
    Field(s, [0x0D], Put16(id));
  }

  lemma UhidInputReads(id: U16, data: seq<Byte>, more: seq<Byte>)
    requires 0 < |data| < TWO16
    ensures Decode(UhidInputHead(id, |data|) + data + more) == Some(Read(UhidInput(id, data), more))
  {
    var head := UhidInputHead(id, |data|);
    var s := head + data + more;
    Field(s, head + data, more);
    Field(s, head, data);
    UhidInputFields(s, id, |data|);
    assert Decode(s) == DecodeSized(s);
  }

  lemma LastByte(data: seq<Byte>, next: Byte)
    requires data != []
    ensures data[..|data| - 1] + [next] == data <==> next == data[|data| - 1]
  {
    assert (data[..|data| - 1] + [next])[|data| - 1] == next;
    assert data == data[..|data| - 1] + [data[|data| - 1]];
  }

  /** In a stream the report takes the next message's first byte as its own last, and
      so is read as built exactly when that byte equals the one it lost. */
  lemma UhidInputSwallows(id: U16, data: seq<Byte>, next: Byte, more: seq<Byte>)
    requires 0 < |data| < TWO16
    ensures var s, n := UhidInputBytes(id, data).value + [next] + more, |data|;
            && Decode(s) == Some(Read(UhidInput(id, data[..n - 1] + [next]), more))
            && (Decode(s) == Some(Read(UhidInput(id, data), more)) <==> next == data[n - 1])
  {
    var b, head, kept := UhidInputBytes(id, data).value, UhidInputHead(id, |data|), data[..|data| - 1];
    UhidInputShape(id, data);
    assert b + [next] == head + (kept + [next]);
    UhidInputReads(id, kept + [next], more);
    LastByte(data, next);
  }

  /** Up to 65535 bytes, a report on its own is incomplete. */
  lemma UhidInputAlone(id: U16, data: seq<Byte>)
    requires 0 < |data| < TWO16
    ensures Decode(UhidInputBytes(id, data).value) == None
  {
    var b := UhidInputBytes(id, data).value;
    UhidInputShape(id, data);
    UhidInputFields(b, id, |data|);
    assert Decode(b) == DecodeSized(b);
  }

  /** A report that was built is read back, exactly when its length fits 16 bits and
      the byte after it equals its lost last one. */
  lemma UhidInputReadBack(id: U16, data: seq<Byte>, more: seq<Byte>)
    ensures UhidInputBytes(id, data).None? <==> data == []
    ensures data != [] ==>
              var r := Decode(UhidInputBytes(id, data).value + more);
              (r.Some? && r.value.c == UhidInput(id, data)
               <==> |data| < TWO16 && more != [] && more[0] == data[|data| - 1])
  {
    if data != [] {
      var b := UhidInputBytes(id, data).value;
      if |data| >= TWO16 {
        DecodeConsumes(b + more);
      } else if more == [] {
        assert b + more == b;
        UhidInputAlone(id, data);
      } else {
        assert b + more == b + [more[0]] + more[1..];
        UhidInputSwallows(id, data, more[0], more[1..]);
        LastByte(data, more[0]);
      }
    }
  }

  // ---------------------------------------------------------------------
  // Streams
  // ---------------------------------------------------------------------

  /** A call whose builder does not panic. */
  type Call = c: Command | c.UhidInput? ==> c.data != [] witness CollapsePanels

  function Built(c: Call): seq<Byte> {
    if c.UhidInput? then UhidInputBytes(c.id, c.data).value else Wire(c)
  }

  function BuiltAll(cs: seq<Call>): seq<Byte> {
    if cs == [] then [] else Built(cs[0]) + BuiltAll(cs[1..])
  }

  function SentAll(cs: seq<Call>): seq<Command> {
    if cs == [] then [] else [Sent(cs[0])] + SentAll(cs[1..])
  }

  predicate AllDelimited(cs: seq<Call>) {
    forall i :: 0 <= i < |cs| ==> Delimited(cs[i])
  }

  /** The bytes a message occupies on the wire. */
  function Size(c: Command): nat {
    match c
    case InjectKeycode(_, _, _, _) => 14
    case InjectText(text) => 5 + |text|
    case InjectTouch(_, _, _, _, _, _, _, _, _) => 32
    case InjectScroll(_, _, _, _, _, _, _) => 21
    case SetClipboard(_, _, text) => 14 + |text|
    case UhidCreate(_, _, _, name, reportDesc) => 10 + |name| + |reportDesc|
    case UhidInput(_, data) => 5 + |data|
    case UhidDestroy(_) => 3
    case StartApp(name) => 2 + |name|
    case ResizeDisplay(_, _) => 5
    case ChangeBitrate(_) => 5
    case BackOrScreenOn(_) => 2
    case GetClipboard(_) => 2
    case SetDisplayPower(_) => 2
    case CameraSetTorch(_) => 2
    case _ => 1
  }

  /** What a 16-bit length field can announce. */
  predicate Announced(c: Command) {
    (c.UhidCreate? ==> |c.reportDesc| < TWO16) && (c.UhidInput? ==> |c.data| < TWO16)
  }

  /** The decoder consumes exactly the size of the message it returns. */
  lemma DecodeConsumes(buf: seq<Byte>)
    ensures Decode(buf).Some? ==>
              var r := Decode(buf).value;
              Size(r.c) + |r.rest| == |buf| && Announced(r.c)
  {
    if buf != [] {
      if Sized(buf[0]) { SizedConsumes(buf); } else { FixedConsumes(buf); }
    }
  }

  lemma SizedConsumes(buf: seq<Byte>)
    requires buf != []
    ensures DecodeSized(buf).Some? ==>
              var r := DecodeSized(buf).value;
              Size(r.c) + |r.rest| == |buf| && Announced(r.c)
  {}

  lemma FixedConsumes(buf: seq<Byte>)
    requires buf != []
    ensures DecodeFixed(buf).Some? ==>
              var r := DecodeFixed(buf).value;
              Size(r.c) + |r.rest| == |buf| && Announced(r.c)
  {}

  function SizeAll(cs: seq<Command>): nat {
    if cs == [] then 0 else Size(cs[0]) + SizeAll(cs[1..])
  }

  lemma {:induction false} DecodeAllConsumes(buf: seq<Byte>)
    ensures DecodeAll(buf).Some? ==>
              && SizeAll(DecodeAll(buf).value) == |buf|
              && forall i :: 0 <= i < |DecodeAll(buf).value| ==> Announced(DecodeAll(buf).value[i])
    decreases |buf|
  {
    if DecodeAll(buf).Some? && buf != [] {
      DecodeConsumes(buf);
      var r := Decode(buf).value;
      DecodeAllConsumes(r.rest);
      assert DecodeAll(buf).value == [r.c] + DecodeAll(r.rest).value;
      assert DecodeAll(buf).value[1..] == DecodeAll(r.rest).value;
    }
  }

  lemma BuiltSize(c: Call)
    ensures |Built(c)| == Size(Sent(c)) - if c.UhidInput? then 1 else 0
  {}

  /** A stream is short by one byte for each UHID report. */
  lemma {:induction false} BuiltAllSize(cs: seq<Call>)
    ensures |BuiltAll(cs)| <= SizeAll(SentAll(cs))
    ensures |BuiltAll(cs)| == SizeAll(SentAll(cs)) <==> forall i :: 0 <= i < |cs| ==> !cs[i].UhidInput?
    decreases |cs|
  {
    if cs != [] {
      BuiltSize(cs[0]);
      BuiltAllSize(cs[1..]);
      assert SentAll(cs)[1..] == SentAll(cs[1..]);
      assert forall i :: 0 < i < |cs| ==> cs[i] == cs[1..][i - 1];
    }
  }

  lemma {:induction false} SentAllAt(cs: seq<Call>, i: nat)
    requires i < |cs|
    ensures |SentAll(cs)| == |cs| && SentAll(cs)[i] == Sent(cs[i])
  {
    if |cs| > 1 {
      SentAllAt(cs[1..], if i > 0 then i - 1 else 0);
    }
  }

  lemma {:induction false} DelimitedDecode(cs: seq<Call>)
    requires AllDelimited(cs)
    ensures DecodeAll(BuiltAll(cs)) == Some(SentAll(cs))
    decreases |cs|
  {
    if cs != [] {
      DecodeWire(cs[0], BuiltAll(cs[1..]));
      DelimitedDecode(cs[1..]);
    }
  }

  /** Only delimited messages have the size and the lengths that a decoded stream has. */
  lemma DecodedDelimited(cs: seq<Call>, i: nat)
    requires i < |cs| && |BuiltAll(cs)| == SizeAll(SentAll(cs)) && i < |SentAll(cs)| && Announced(SentAll(cs)[i])
    ensures Delimited(cs[i])
  {
    BuiltAllSize(cs);
    SentAllAt(cs, i);
  }

  /** The control stream, exactly: what a list of calls writes decodes to the messages
      sent if and only if every one of them is delimited.  One UHID report, or one UHID
      device with an oversized descriptor, spoils any stream it is in. */
  lemma StreamDecodes(cs: seq<Call>)
    ensures DecodeAll(BuiltAll(cs)) == Some(SentAll(cs)) <==> AllDelimited(cs)
  {
    if AllDelimited(cs) {
      DelimitedDecode(cs);
    }
    var decoded := DecodeAll(BuiltAll(cs));
    DecodeAllConsumes(BuiltAll(cs));
    forall i | decoded == Some(SentAll(cs)) && 0 <= i < |cs| ensures Delimited(cs[i]) {
      SentAllAt(cs, i);
      DecodedDelimited(cs, i);
    }
  }

  /** Different delimited messages never share a stream of bytes. */
  lemma UniquelyDecodable(cs: seq<Call>, ds: seq<Call>)
    requires AllDelimited(cs) && AllDelimited(ds) && BuiltAll(cs) == BuiltAll(ds)
    ensures SentAll(cs) == SentAll(ds)
  {
    StreamDecodes(cs);
    StreamDecodes(ds);
  }
}
