/** Cutting text at a character boundary; validity per section 4 of RFC 3629. */
module Utf8Text {
  import opened Bytes

  const MAX_TEXT := 300

  predicate Tail(s: seq<Byte>, i: nat) {
    i < |s| && 0x80 <= s[i] <= 0xBF
  }

  predicate Between(s: seq<Byte>, i: nat, lo: Byte, hi: Byte) {
    i < |s| && lo <= s[i] <= hi
  }

  /** Length of the well-formed character at the head of s, 0 if there is none. */
  function CharLen(s: seq<Byte>): (n: nat)
    ensures n <= 4 && n <= |s|
  {
    if s == [] then 0
    else if s[0] <= 0x7F then 1
    else if 0xC2 <= s[0] <= 0xDF then if Tail(s, 1) then 2 else 0
    else if s[0] == 0xE0 then if Between(s, 1, 0xA0, 0xBF) && Tail(s, 2) then 3 else 0
    else if 0xE1 <= s[0] <= 0xEC || 0xEE <= s[0] <= 0xEF then if Tail(s, 1) && Tail(s, 2) then 3 else 0
    else if s[0] == 0xED then if Between(s, 1, 0x80, 0x9F) && Tail(s, 2) then 3 else 0
    else if s[0] == 0xF0 then if Between(s, 1, 0x90, 0xBF) && Tail(s, 2) && Tail(s, 3) then 4 else 0
    else if 0xF1 <= s[0] <= 0xF3 then if Tail(s, 1) && Tail(s, 2) && Tail(s, 3) then 4 else 0
    else if s[0] == 0xF4 then if Between(s, 1, 0x80, 0x8F) && Tail(s, 2) && Tail(s, 3) then 4 else 0
    else 0
  }

  predicate Valid(s: seq<Byte>)
    decreases |s|
  {
    s == [] || (CharLen(s) > 0 && Valid(s[CharLen(s)..]))
  }

  // ---------------------------------------------------------------------
  // Valid bytes are encoded characters
  // ---------------------------------------------------------------------

  /** Code points, without the surrogates. */
  type Character = c: int | 0 <= c < 0xD800 || 0xE000 <= c < 0x11_0000

  /** Section 3 of RFC 3629. */
  function EncodeChar(c: Character): seq<Byte> {
    if c < 0x80 then [c]
    else if c < 0x800 then [0xC0 + c / 0x40, 0x80 + c % 0x40]
    else if c < 0x1_0000 then [0xE0 + c / 0x1000, 0x80 + c / 0x40 % 0x40, 0x80 + c % 0x40]
    else [0xF0 + c / 0x4_0000, 0x80 + c / 0x1000 % 0x40, 0x80 + c / 0x40 % 0x40, 0x80 + c % 0x40]
  }

  function EncodeText(cs: seq<Character>): seq<Byte> {
    if cs == [] then [] else EncodeChar(cs[0]) + EncodeText(cs[1..])
  }

  /** The bytes are a character sequence. */
  ghost predicate IsText(s: seq<Byte>) {
    exists cs :: EncodeText(cs) == s
  }

  lemma TwoBytes(a: int, b: int) returns (c: Character)
    requires 0xC2 <= a <= 0xDF && 0x80 <= b <= 0xBF
    ensures EncodeChar(c) == [a, b]
  {
    c := (a - 0xC0) * 0x40 + (b - 0x80);
  }

  lemma ThreeBytes(a: int, b: int, d: int) returns (c: Character)
    requires 0xE0 <= a <= 0xEF && 0x80 <= b <= 0xBF && 0x80 <= d <= 0xBF
    requires (a == 0xE0 ==> b >= 0xA0) && (a == 0xED ==> b <= 0x9F)
    ensures EncodeChar(c) == [a, b, d]
  {
    var high := (a - 0xE0) * 0x40 + (b - 0x80);
    c := high * 0x40 + (d - 0x80);
    assert c / 0x40 == high && c / 0x1000 == high / 0x40 == a - 0xE0;
  }

  lemma FourBytes(a: int, b: int, d: int, e: int) returns (c: Character)
    requires 0xF0 <= a <= 0xF4 && 0x80 <= b <= 0xBF && 0x80 <= d <= 0xBF && 0x80 <= e <= 0xBF
    requires (a == 0xF0 ==> b >= 0x90) && (a == 0xF4 ==> b <= 0x8F)
    ensures EncodeChar(c) == [a, b, d, e]
  {
    var top := (a - 0xF0) * 0x40 + (b - 0x80);
    var high := top * 0x40 + (d - 0x80);
    c := high * 0x40 + (e - 0x80);
    assert c / 0x40 == high && c / 0x1000 == high / 0x40 == top && c / 0x4_0000 == top / 0x40 == a - 0xF0;
  }

  /** A well-formed character at the head of s is an encoded one. */
  lemma HeadIsEncoded(s: seq<Byte>) returns (c: Character)
    requires CharLen(s) > 0
    ensures EncodeChar(c) == s[..CharLen(s)]
  {
    match CharLen(s)
    case 1 => c := s[0];
    case 2 => c := TwoBytes(s[0], s[1]);
    case 3 => c := ThreeBytes(s[0], s[1], s[2]);
    case _ => c := FourBytes(s[0], s[1], s[2], s[3]);
  }

  /** What decides about the first two bytes of an encoded character. */
  lemma HeadBytes(c: Character)
    ensures var b := EncodeChar(c);
            && (|b| == 2 ==> 0xC2 <= b[0] <= 0xDF)
            && (|b| == 3 ==> 0xE0 <= b[0] <= 0xEF && (b[0] == 0xE0 ==> 0xA0 <= b[1]) && (b[0] == 0xED ==> b[1] <= 0x9F))
            && (|b| == 4 ==> 0xF0 <= b[0] <= 0xF4 && (b[0] == 0xF0 ==> 0x90 <= b[1]) && (b[0] == 0xF4 ==> b[1] <= 0x8F))
            && (forall i :: 1 <= i < |b| ==> 0x80 <= b[i] <= 0xBF)
  {}

  lemma CharLenOfEncoded(c: Character, rest: seq<Byte>)
    ensures CharLen(EncodeChar(c) + rest) == |EncodeChar(c)|
  {
    var b := EncodeChar(c);
    var s := b + rest;
    HeadBytes(c);
    assert s[0] == b[0];
    assert |b| >= 2 ==> s[1] == b[1];
    assert |b| >= 3 ==> s[2] == b[2];
    assert |b| == 4 ==> s[3] == b[3];
  }

  lemma {:induction false} EncodedIsValid(cs: seq<Character>)
    ensures Valid(EncodeText(cs))
  {
    if cs != [] {
      var head, rest := EncodeChar(cs[0]), EncodeText(cs[1..]);
      CharLenOfEncoded(cs[0], rest);
      EncodedIsValid(cs[1..]);
      assert (head + rest)[|head|..] == rest;
    }
  }

  lemma {:induction false} ValidIsEncoded(s: seq<Byte>) returns (cs: seq<Character>)
    requires Valid(s)
    ensures EncodeText(cs) == s
    decreases |s|
  {
    cs := [];
    if s != [] {
      var n := CharLen(s);
      var rest := ValidIsEncoded(s[n..]);
      var c := HeadIsEncoded(s);
      cs := [c] + rest;
      assert cs[1..] == rest && s == s[..n] + s[n..];
    }
  }

  /** Valid bytes are exactly the encodings of character sequences. */
  lemma ValidExactly(s: seq<Byte>)
    ensures Valid(s) <==> IsText(s)
  {
    if Valid(s) {
      var cs := ValidIsEncoded(s);
    }
    if cs :| EncodeText(cs) == s {
      EncodedIsValid(cs);
    }
  }

  // ---------------------------------------------------------------------
  // Truncation
  // ---------------------------------------------------------------------

  function LongestValid(s: seq<Byte>): seq<Byte> {
    if s == [] || Valid(s) then s else LongestValid(s[..|s| - 1])
  }

  function Truncate(text: seq<Byte>): seq<Byte> {
    if |text| > MAX_TEXT then LongestValid(text[..MAX_TEXT]) else text
  }

  method TruncateText(text: seq<Byte>) returns (encoded: seq<Byte>)
    ensures encoded == Truncate(text)
  {
    encoded := text;
    if |encoded| > MAX_TEXT {
      encoded := encoded[..MAX_TEXT];
      while |encoded| > 0 && !Valid(encoded)
        invariant LongestValid(encoded) == LongestValid(text[..MAX_TEXT])
      {
        encoded := encoded[..|encoded| - 1];
      }
    }
  }

  lemma {:induction false} LongestValidIsLongest(s: seq<Byte>)
    ensures LongestValid(s) <= s && Valid(LongestValid(s))
    ensures forall k :: |LongestValid(s)| < k <= |s| ==> !Valid(s[..k])
  {
    if s != [] && !Valid(s) {
      var shorter := s[..|s| - 1];
      LongestValidIsLongest(shorter);
      forall k | |LongestValid(s)| < k <= |s| ensures !Valid(s[..k]) {
        assert s[..k] == if k == |s| then s else shorter[..k];
      }
    }
  }

  lemma CharLenPrefix(s: seq<Byte>, k: nat)
    requires CharLen(s) <= k <= |s| && CharLen(s) > 0
    ensures CharLen(s[..k]) == CharLen(s)
  {}

  /** In valid text every position has a character boundary at most 3 bytes back. */
  lemma {:induction false} BoundaryNear(s: seq<Byte>, n: nat) returns (k: nat)
    requires Valid(s) && n <= |s|
    ensures n - 3 <= k <= n && Valid(s[..k])
    decreases |s|
  {
    k := 0;
    if s != [] && CharLen(s) <= n {
      var c := CharLen(s);
      var j := BoundaryNear(s[c..], n - c);
      k := c + j;
      CharLenPrefix(s, k);
      assert s[..k][c..] == s[c..][..j];
    }
  }

  /** Text of over 300 bytes is cut to the longest character sequence that its first 300
      bytes begin with; of a character sequence at most 3 of those bytes are lost.  Text
      of at most 300 bytes stays as it is. */
  lemma TruncateText300(text: seq<Byte>)
    ensures |text| <= 300 ==> Truncate(text) == text
    ensures |text| > 300 ==>
              var r := Truncate(text);
              && r <= text[..300] && IsText(r)
              && (forall k :: |r| < k <= 300 ==> !IsText(text[..k]))
              && (IsText(text) ==> |r| >= 297)
  {
    if |text| > 300 {
      var head := text[..300];
      LongestValidIsLongest(head);
      forall s: seq<Byte> ensures IsText(s) <==> Valid(s) { ValidExactly(s); }
      assert forall k :: 0 <= k <= 300 ==> head[..k] == text[..k];
      if Valid(text) {
        var k := BoundaryNear(text, 300);
      }
    }
  }
}
