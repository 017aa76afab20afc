/** The builders that fill a byte buffer in place. */
module ControlBuilders {
  import opened Common
  import opened Bytes
  import opened Utf8Text
  import opened ControlMessages

  // Each helper extends what has been written so far, `w`.

  method PutByte(b: array<Byte>, at: nat, v: Byte, ghost w: seq<Byte>)
    requires at < b.Length && b[..at] == w
    modifies b
    ensures b[..at + 1] == w + [v]
  {
    b[at] := v;
  }

  method PutUint16(b: array<Byte>, at: nat, v: U16, ghost w: seq<Byte>)
    requires at + 2 <= b.Length && b[..at] == w
    modifies b
    ensures b[..at + 2] == w + Put16(v)
  {
    b[at], b[at + 1] := v / 256, v % 256;
  }

  method PutUint32(b: array<Byte>, at: nat, v: U32, ghost w: seq<Byte>)
    requires at + 4 <= b.Length && b[..at] == w
    modifies b
    ensures b[..at + 4] == w + Put32(v)
  {
    PutUint16(b, at, v / TWO16, w);
    PutUint16(b, at + 2, v % TWO16, w + Put16(v / TWO16));
  }

  method PutUint64(b: array<Byte>, at: nat, v: U64, ghost w: seq<Byte>)
    requires at + 8 <= b.Length && b[..at] == w
    modifies b
    ensures b[..at + 8] == w + Put64(v)
  {
    PutUint32(b, at, v / TWO32, w);
    PutUint32(b, at + 4, v % TWO32, w + Put32(v / TWO32));
  }

  method PutPosition(b: array<Byte>, at: nat, x: U32, y: U32, width: U16, height: U16, ghost w: seq<Byte>)
    requires at + 12 <= b.Length && b[..at] == w
    modifies b
    ensures b[..at + 12] == w + Position(x, y, width, height)
  {
    PutUint32(b, at, x, w);
    PutUint32(b, at + 4, y, w + Put32(x));
    PutUint16(b, at + 8, width, w + Put32(x) + Put32(y));
    PutUint16(b, at + 10, height, w + Put32(x) + Put32(y) + Put16(width));
  }

  method PutIds(b: array<Byte>, at: nat, id: U16, vendor: U16, product: U16, ghost w: seq<Byte>)
    requires at + 6 <= b.Length && b[..at] == w
    modifies b
    ensures b[..at + 6] == w + UhidIds(id, vendor, product)
  {
    PutUint16(b, at, id, w);
    PutUint16(b, at + 2, vendor, w + Put16(id));
    PutUint16(b, at + 4, product, w + Put16(id) + Put16(vendor));
  }

  /** Go's copy: as many bytes as fit. */
  method Copy(b: array<Byte>, at: nat, src: seq<Byte>, ghost w: seq<Byte>)
    requires at <= b.Length && b[..at] == w
    modifies b
    ensures b[..] == (w + src)[..Min(b.Length, at + |src|)] + old(b[Min(b.Length, at + |src|)..])
  {
    var n := Min(|src|, b.Length - at);
    var i := 0;
    while i < n
      invariant 0 <= i <= n
      invariant b[..at + i] == w + src[..i]
      invariant b[at + i..] == old(b[at + i..])
    {
      b[at + i] := src[i];
      i := i + 1;
    }
    assert (w + src)[..at + n] == w + src[..n];
    assert b[..] == b[..at + n] + b[at + n..];
  }

  method PutSized32(b: array<Byte>, at: nat, s: seq<Byte>, ghost w: seq<Byte>)
    requires |s| < TWO32 && at + 4 + |s| == b.Length && b[..at] == w
    modifies b
    ensures b[..] == w + Sized32(s)
  {
    PutUint32(b, at, |s|, w);
    Copy(b, at + 4, s, w + Put32(|s|));
    assert (w + Put32(|s|) + s)[..b.Length] == w + Put32(|s|) + s;
    assert w + Put32(|s|) + s == w + Sized32(s);
  }

  method BuildInjectKeycode(action: U32, keycode: U32, repetition: U32, metastate: U32) returns (b: array<Byte>)
    ensures fresh(b) && b[..] == Wire(InjectKeycode(action, keycode, repetition, metastate))
  {
    b := new Byte[14];
    b[0], b[1] := 0x00, action % 256;
    ghost var w := [0x00, action % 256];
    PutUint32(b, 2, keycode, w);
    PutUint32(b, 6, repetition, w + Put32(keycode));
    PutUint32(b, 10, metastate, w + Put32(keycode) + Put32(repetition));
    assert b[..] == b[..14];
  }

  method BuildInjectText(text: seq<Byte>) returns (b: array<Byte>)
    ensures fresh(b) && b[..] == Wire(InjectText(text))
  {
    var encoded := TruncateText(text);
    assert encoded == TruncateBound(text);
    b := new Byte[5 + |encoded|];
    b[0] := 0x01;
    PutSized32(b, 1, encoded, [0x01]);
  }

  method BuildInjectTouch(action: Byte, pointerID: U64, x: U32, y: U32, width: U16, height: U16, pressure: U16,
                          actionButton: U32, buttons: U32)
    returns (b: array<Byte>)
    ensures fresh(b)
    ensures b[..] == Wire(InjectTouch(action, pointerID, x, y, width, height, pressure, actionButton, buttons))
  {
    b := new Byte[32];
    b[0], b[1] := 0x02, action;
    ghost var w := [0x02, action];
    PutUint64(b, 2, pointerID, w);
    w := w + Put64(pointerID);
    PutPosition(b, 10, x, y, width, height, w);
    w := w + Position(x, y, width, height);
    PutUint16(b, 22, pressure, w);
    w := w + Put16(pressure);
    PutUint32(b, 24, actionButton, w);
    PutUint32(b, 28, buttons, w + Put32(actionButton));
    assert b[..] == b[..32];
  }

  method BuildInjectScroll(x: U32, y: U32, width: U16, height: U16, hscroll: U16, vscroll: U16, buttons: U32)
    returns (b: array<Byte>)
    ensures fresh(b) && b[..] == Wire(InjectScroll(x, y, width, height, hscroll, vscroll, buttons))
  {
    b := new Byte[21];
    b[0] := 0x03;
    ghost var w := [0x03];
    PutPosition(b, 1, x, y, width, height, w);
    w := w + Position(x, y, width, height);
    PutUint16(b, 13, hscroll, w);
    PutUint16(b, 15, vscroll, w + Put16(hscroll));
    PutUint32(b, 17, buttons, w + Put16(hscroll) + Put16(vscroll));
    assert b[..] == b[..21];
  }

  method BuildChangeBitrate(bitrate: int) returns (b: array<Byte>)
    ensures fresh(b) && b[..] == Wire(ChangeBitrate(bitrate))
  {
    b := new Byte[5];
    b[0] := 0x18;
    PutUint32(b, 1, bitrate % TWO32, [0x18]);
    assert b[..] == b[..5];
  }

  method BuildSetClipboard(sequence: U64, paste: bool, text: seq<Byte>) returns (b: array<Byte>)
    ensures fresh(b) && b[..] == Wire(SetClipboard(sequence, paste, text))
  {
    var encoded := text;
    if |encoded| > MAX_CLIPBOARD { encoded := encoded[..MAX_CLIPBOARD]; }
    var p: Byte := 0;
    if paste { p := 1; }
    b := new Byte[14 + |encoded|];
    b[0] := 0x09;
    ghost var w := [0x09];
    PutUint64(b, 1, sequence, w);
    w := w + Put64(sequence);
    PutByte(b, 9, p, w);
    PutSized32(b, 10, encoded, w + [p]);
  }

  method BuildStartApp(name: seq<Byte>) returns (b: array<Byte>)
    ensures fresh(b) && b[..] == Wire(StartApp(name))
  {
    var encoded := name;
    if |encoded| > MAX_NAME { encoded := encoded[..MAX_NAME]; }
    b := new Byte[2 + |encoded|];
    b[0], b[1] := 0x10, |encoded|;
    Copy(b, 2, encoded, [0x10] + [|encoded|]);
    assert ([0x10] + [|encoded|] + encoded)[..b.Length] == [0x10] + [|encoded|] + encoded;
  }

  method BuildUhidCreate(id: U16, vendor: U16, product: U16, name: seq<Byte>, reportDesc: seq<Byte>)
    returns (b: array<Byte>)
    ensures fresh(b) && b[..] == Wire(UhidCreate(id, vendor, product, name, reportDesc))
  {
    var encoded := name;
    if |encoded| > MAX_NAME { encoded := encoded[..MAX_NAME]; }
    var total := 1 + 2 * 3 + 1 + |encoded| + 2 + |reportDesc|;
    b := new Byte[total];
    b[0] := 0x0C;
    var pos := 1;
    ghost var w := [0x0C];
    PutIds(b, pos, id, vendor, product, w);
    pos := pos + 6;
    w := w + UhidIds(id, vendor, product);
    PutByte(b, pos, |encoded|, w);
    pos := pos + 1;
    w := w + [|encoded|];
    Copy(b, pos, encoded, w);
    pos := pos + |encoded|;
    w := w + encoded;
    assert b[..pos] == w;
    PutUint16(b, pos, |reportDesc| % TWO16, w);
    pos := pos + 2;
    w := w + Put16(|reportDesc| % TWO16);
    Copy(b, pos, reportDesc, w);
    assert (w + reportDesc)[..total] == w + reportDesc;
  }

  /** Without data the length field does not fit and the builder panics. */
  method BuildUhidInput(id: U16, data: seq<Byte>) returns (panics: bool, b: array<Byte>)
    ensures fresh(b)
    ensures UhidInputBytes(id, data) == if panics then None else Some(b[..])
  {
    b := new Byte[4 + |data|];
    b[0] := 0x0D;
    ghost var w := [0x0D];
    PutUint16(b, 1, id, w);
    if b.Length < 5 { return true, b; }
    w := w + Put16(id);
    PutUint16(b, 3, |data| % TWO16, w);
    w := w + Put16(|data| % TWO16);
    Copy(b, 5, data, w);
    assert w + data == Wire(UhidInput(id, data));
    assert b[..] == (w + data)[..4 + |data|];
    assert data != [];
    return false, b;
  }

  method BuildUhidDestroy(id: U16) returns (b: array<Byte>)
    ensures fresh(b) && b[..] == Wire(UhidDestroy(id))
  {
    b := new Byte[3];
    b[0] := 0x0E;
    PutUint16(b, 1, id, [0x0E]);
    assert b[..] == b[..3];
  }

  method BuildResizeDisplay(width: U16, height: U16) returns (b: array<Byte>)
    ensures fresh(b) && b[..] == Wire(ResizeDisplay(width, height))
  {
    b := new Byte[5];
    b[0] := 0x15;
    PutUint16(b, 1, width, [0x15]);
    PutUint16(b, 3, height, [0x15] + Put16(width));
    assert b[..] == b[..5];
  }
}
