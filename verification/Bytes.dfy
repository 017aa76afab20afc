/** Bytes and big-endian integers. */
module Bytes {
  type Byte = x: int | 0 <= x < 256

  const TWO16 := 0x1_0000
  const TWO32 := 0x1_0000_0000
  const TWO64 := 0x1_0000_0000_0000_0000

  type U16 = x: int | 0 <= x < TWO16
  type U32 = x: int | 0 <= x < TWO32
  type U64 = x: int | 0 <= x < TWO64

  function Put16(v: U16): (b: seq<Byte>)
    ensures |b| == 2 && Get16(b) == v
  {
    [v / 256, v % 256]
  }

  function Get16(b: seq<Byte>): U16
    requires |b| == 2
  {
    (b[0] as int) * 256 + b[1] as int
  }

  function Put32(v: U32): (b: seq<Byte>)
    ensures |b| == 4 && Get32(b) == v
  {
    var b := Put16(v / TWO16) + Put16(v % TWO16);
    assert b[..2] == Put16(v / TWO16) && b[2..] == Put16(v % TWO16);
    b
  }

  function Get32(b: seq<Byte>): U32
    requires |b| == 4
  {
    Get16(b[..2]) * TWO16 + Get16(b[2..])
  }

  function Put64(v: U64): (b: seq<Byte>)
    ensures |b| == 8 && Get64(b) == v
  {
    var b := Put32(v / TWO32) + Put32(v % TWO32);
    assert b[..4] == Put32(v / TWO32) && b[4..] == Put32(v % TWO32);
    b
  }

  function Get64(b: seq<Byte>): U64
    requires |b| == 8
  {
    Get32(b[..4]) * TWO32 + Get32(b[4..])
  }

  lemma Put16Get16(b: seq<Byte>)
    requires |b| == 2
    ensures Put16(Get16(b)) == b
  {}

  lemma Put32Get32(b: seq<Byte>)
    requires |b| == 4
    ensures Put32(Get32(b)) == b
  {
    Put16Get16(b[..2]);
    Put16Get16(b[2..]);
    assert Get32(b) / TWO16 == Get16(b[..2]) && Get32(b) % TWO16 == Get16(b[2..]);
    assert b == b[..2] + b[2..];
  }

  lemma Put64Get64(b: seq<Byte>)
    requires |b| == 8
    ensures Put64(Get64(b)) == b
  {
    Put32Get32(b[..4]);
    Put32Get32(b[4..]);
    assert Get64(b) / TWO32 == Get32(b[..4]) && Get64(b) % TWO32 == Get32(b[4..]);
    assert b == b[..4] + b[4..];
  }

  /** The field f that follows the prefix w of a buffer. */
  lemma Field(s: seq<Byte>, w: seq<Byte>, f: seq<Byte>)
    requires w + f <= s
    ensures w <= s && s[|w|..|w| + |f|] == f
  {
    assert w == (w + f)[..|w|] == s[..|w|];
    assert f == (w + f)[|w|..] == s[|w|..|w| + |f|];
  }
}
