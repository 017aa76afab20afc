/** Annex-B byte streams: start codes, NAL units and parameter-set injection. */
module AnnexB {
  import opened Common
  import opened Bytes

  const CODE3: seq<Byte> := [0, 0, 1]
  const CODE4: seq<Byte> := [0, 0, 0, 1]

  /** A three-byte (or four-byte) start code stands at position i. */
  predicate Code3At(s: seq<Byte>, i: int) {
    0 <= i && i + 3 <= |s| && s[i] == 0 && s[i + 1] == 0 && s[i + 2] == 1
  }

  predicate Code4At(s: seq<Byte>, i: int) {
    0 <= i && i + 4 <= |s| && s[i] == 0 && s[i + 1] == 0 && s[i + 2] == 0 && s[i + 3] == 1
  }

  // ---------------------------------------------------------------------
  // The splitter of section B.1 of ITU-T H.264
  // ---------------------------------------------------------------------

  datatype List<T> = Nil | Cons(head: T, tail: List<T>)

  function Append<T>(a: List<T>, b: List<T>): List<T> {
    match a
    case Nil => b
    case Cons(h, t) => Cons(h, Append(t, b))
  }

  /** A byte stream cut at every 00 00 01: what precedes the first code, and what
      follows each code. */
  datatype Cut = Cut(head: seq<Byte>, tail: List<seq<Byte>>)

  function CutAtCodes(s: seq<Byte>): Cut
    decreases |s|
  {
    if |s| < 3 then Cut(s, Nil)
    else if Code3At(s, 0) then
      var c := CutAtCodes(s[3..]);
      Cut([], Cons(c.head, c.tail))
    else
      var c := CutAtCodes(s[1..]);
      Cut([s[0]] + c.head, c.tail)
  }

  function Glue(tail: List<seq<Byte>>): seq<Byte> {
    match tail
    case Nil => []
    case Cons(h, t) => CODE3 + h + Glue(t)
  }

  function StripZeros(s: seq<Byte>): (r: seq<Byte>)
    ensures r <= s && (r != [] ==> r[|r| - 1] != 0)
    ensures forall i :: |r| <= i < |s| ==> s[i] == 0
  {
    if s != [] && s[|s| - 1] == 0 then StripZeros(s[..|s| - 1]) else s
  }

  /** Trailing zeros stripped, empty units dropped. */
  function Units(segments: List<seq<Byte>>): List<seq<Byte>> {
    match segments
    case Nil => Nil
    case Cons(h, t) => if StripZeros(h) == [] then Units(t) else Cons(StripZeros(h), Units(t))
  }

  /** The NAL units of a byte stream: everything after the first start code. */
  function Nals(s: seq<Byte>): List<seq<Byte>> {
    Units(CutAtCodes(s).tail)
  }

  ghost predicate CodeFree(s: seq<Byte>) {
    forall i :: !Code3At(s, i)
  }

  ghost predicate AllCodeFree(segments: List<seq<Byte>>) {
    segments.Cons? ==> CodeFree(segments.head) && AllCodeFree(segments.tail)
  }

  /** Cutting loses nothing. */
  lemma {:induction false} CutGlue(s: seq<Byte>)
    ensures s == CutAtCodes(s).head + Glue(CutAtCodes(s).tail)
    decreases |s|
  {
    if |s| < 3 {
    } else if Code3At(s, 0) {
      CutGlue(s[3..]);
      assert s == CODE3 + s[3..];
    } else {
      CutGlue(s[1..]);
      assert s == [s[0]] + s[1..];
    }
  }

  lemma CodeFreeHead(b: Byte, s: seq<Byte>, head: seq<Byte>)
    requires head <= s && CodeFree(head) && !Code3At([b] + s, 0)
    ensures CodeFree([b] + head)
  {
    forall i ensures !Code3At([b] + head, i) {
      assert i > 0 && Code3At([b] + head, i) ==> Code3At(head, i - 1);
      assert i == 0 && Code3At([b] + head, i) ==> Code3At([b] + s, 0);
    }
  }

  /** No piece still holds a start code. */
  lemma {:induction false} CutCodeFree(s: seq<Byte>)
    ensures CodeFree(CutAtCodes(s).head) && AllCodeFree(CutAtCodes(s).tail)
    decreases |s|
  {
    if |s| < 3 {
    } else if Code3At(s, 0) {
      CutCodeFree(s[3..]);
    } else {
      CutCodeFree(s[1..]);
      CutGlue(s[1..]);
      assert s == [s[0]] + s[1..];
      CodeFreeHead(s[0], s[1..], CutAtCodes(s[1..]).head);
    }
  }

  /** A byte that opens no start code goes to the head of the first piece. */
  lemma CutByte(s: seq<Byte>)
    requires s != [] && !Code3At(s, 0)
    ensures var c := CutAtCodes(s[1..]); CutAtCodes(s) == Cut([s[0]] + c.head, c.tail)
  {
    assert s == [s[0]] + s[1..];
  }

  lemma DropFront(a: seq<Byte>, b: seq<Byte>, k: nat)
    requires k <= |a|
    ensures (a + CODE3 + b)[k..] == a[k..] + CODE3 + b
  {}

  lemma CodeAtFront(a: seq<Byte>, b: seq<Byte>)
    requires a != []
    ensures Code3At(a + CODE3 + b, 0) <==> Code3At(a, 0)
    ensures (a + CODE3 + b)[0] == a[0]
  {}

  /** A start code cuts the stream wherever it is inserted. */
  lemma {:induction false} CutSplit(a: seq<Byte>, b: seq<Byte>)
    ensures var ca, cb := CutAtCodes(a), CutAtCodes(b);
            CutAtCodes(a + CODE3 + b) == Cut(ca.head, Append(ca.tail, Cons(cb.head, cb.tail)))
    decreases |a|
  {
    var s := a + CODE3 + b;
    if a == [] {
      assert Code3At(s, 0) && s[3..] == b;
    } else {
      CodeAtFront(a, b);
      if Code3At(a, 0) {
        DropFront(a, b, 3);
        CutSplit(a[3..], b);
      } else {
        DropFront(a, b, 1);
        CutSplit(a[1..], b);
        CutByte(a);
        CutByte(s);
      }
    }
  }

  lemma {:induction false} UnitsAppend(a: List<seq<Byte>>, b: List<seq<Byte>>)
    ensures Units(Append(a, b)) == Append(Units(a), Units(b))
  {
    if a.Cons? { UnitsAppend(a.tail, b); }
  }

  function ZeroLast(segments: List<seq<Byte>>): List<seq<Byte>> {
    match segments
    case Nil => Nil
    case Cons(h, Nil) => Cons(h + [0], Nil)
    case Cons(h, t) => Cons(h, ZeroLast(t))
  }

  lemma {:induction false} ZeroLastUnits(segments: List<seq<Byte>>)
    ensures Units(ZeroLast(segments)) == Units(segments)
  {
    if segments.Cons? {
      ZeroLastUnits(segments.tail);
      var h := segments.head;
      assert (h + [0])[..|h|] == h;
    }
  }

  lemma {:induction false} ZeroCut(a: seq<Byte>)
    ensures var c := CutAtCodes(a);
            CutAtCodes(a + [0]) == if c.tail == Nil then Cut(c.head + [0], Nil) else Cut(c.head, ZeroLast(c.tail))
    decreases |a|
  {
    var z := a + [0];
    if a == [] {
      assert z == [] + [0];
    } else if |a| >= 3 && Code3At(a, 0) {
      ZeroCut(a[3..]);
      assert z[3..] == a[3..] + [0];
    } else {
      assert !Code3At(z, 0);
      ZeroCut(a[1..]);
      var d := CutAtCodes(a[1..]);
      assert z[1..] == a[1..] + [0];
      assert [a[0]] + (d.head + [0]) == ([a[0]] + d.head) + [0];
      assert a == [a[0]] + a[1..];
    }
  }

  /** A trailing zero byte belongs to no NAL unit. */
  lemma TrailingZero(a: seq<Byte>)
    ensures Nals(a + [0]) == Nals(a)
  {
    ZeroCut(a);
    ZeroLastUnits(CutAtCodes(a).tail);
  }

  // ---------------------------------------------------------------------
  // mergeConfigNAL
  // ---------------------------------------------------------------------

  predicate EndsWithCode(c: seq<Byte>) {
    (|c| >= 4 && c[|c| - 4..] == CODE4) || (|c| >= 3 && c[|c| - 3..] == CODE3)
  }

  function MergeConfigNAL(config: seq<Byte>, payload: seq<Byte>): seq<Byte> {
    if EndsWithCode(config) then config + payload else config + CODE4 + payload
  }

  predicate StartsWithCode(p: seq<Byte>) {
    CODE4 <= p || CODE3 <= p
  }

  /** forwardVideo's normalisation of an H.264 payload. */
  function EnsureCode(payload: seq<Byte>): (r: seq<Byte>)
    ensures [0, 0, 0, 1] <= payload || [0, 0, 1] <= payload ==> r == payload
    ensures !([0, 0, 0, 1] <= payload || [0, 0, 1] <= payload) ==> r == [0, 0, 0, 1] + payload
    ensures StartsWithCode(r)
  {
    if StartsWithCode(payload) then payload else CODE4 + payload
  }

  lemma NalsAtCode(a: seq<Byte>, b: seq<Byte>)
    ensures Nals(a + CODE3 + b) == Append(Nals(a), Nals(CODE3 + b))
  {
    CutSplit(a, b);
    CutSplit([], b);
    assert [] + CODE3 + b == CODE3 + b;
    var cb := CutAtCodes(b);
    UnitsAppend(CutAtCodes(a).tail, Cons(cb.head, cb.tail));
  }

  lemma NalsWithoutCode(a: seq<Byte>)
    requires |a| < 3
    ensures Nals(a) == Nil
  {}

  /** Appending a payload that starts with a start code appends its NAL units. */
  lemma NalsAppend(a: seq<Byte>, p: seq<Byte>)
    requires StartsWithCode(p)
    ensures Nals(a + p) == Append(Nals(a), Nals(p))
  {
    if CODE4 <= p {
      var b := p[4..];
      NalsAtCode(a + [0], b);
      NalsAtCode([0], b);
      TrailingZero(a);
      NalsWithoutCode([0]);
      assert a + p == (a + [0]) + CODE3 + b;
      assert p == [0] + CODE3 + b;
    } else {
      NalsAtCode(a, p[3..]);
      assert a + p == a + CODE3 + p[3..];
      assert p == CODE3 + p[3..];
    }
  }

  lemma BareCode()
    ensures Nals(CODE4) == Nil
  {
    assert CODE4 == [0] + CODE3 + [];
    NalsAtCode([0], []);
    NalsWithoutCode([0]);
    assert CODE3 + [] == CODE3 && CODE3[3..] == [];
    assert CutAtCodes(CODE3) == Cut([], Cons([], Nil));
  }

  lemma {:induction false} AppendNil<T>(a: List<T>)
    ensures Append(a, Nil) == a
  {
    if a.Cons? { AppendNil(a.tail); }
  }

  /** Injecting parameter sets preserves meaning: the merged access unit holds
      exactly the configuration's NAL units, then the payload's. */
  lemma MergePreservesNals(config: seq<Byte>, payload: seq<Byte>)
    requires StartsWithCode(payload)
    ensures Nals(MergeConfigNAL(config, payload)) == Append(Nals(config), Nals(payload))
    ensures config <= MergeConfigNAL(config, payload)
  {
    if EndsWithCode(config) {
      NalsAppend(config, payload);
    } else {
      NalsAppend(config + CODE4, payload);
      NalsAppend(config, CODE4);
      BareCode();
      AppendNil(Nals(config));
    }
  }

  /** The merge byte by byte: the configuration, a four-byte start code unless the
      configuration ends with 00 00 01, and the payload. */
  lemma MergeExactly(config: seq<Byte>, payload: seq<Byte>)
    ensures var r := MergeConfigNAL(config, payload);
            var gap := if |config| >= 3 && config[|config| - 3..] == [0, 0, 1] then [] else [0, 0, 0, 1];
            r == config + gap + payload
  {
    if |config| >= 4 && config[|config| - 4..] == CODE4 {
      assert config[|config| - 3..] == config[|config| - 4..][1..] == CODE3;
    }
    assert config + [] == config;
  }

  // ---------------------------------------------------------------------
  // FindStartCode
  // ---------------------------------------------------------------------

  function Find4(s: seq<Byte>, from: nat): (r: Option<nat>)
    ensures r.Some? ==> from <= r.value && Code4At(s, r.value) && forall k :: from <= k < r.value ==> !Code4At(s, k)
    ensures r.None? ==> forall k :: from <= k ==> !Code4At(s, k)
    decreases |s| - from
  {
    if from + 4 > |s| then None else if Code4At(s, from) then Some(from) else Find4(s, from + 1)
  }

  function Find3(s: seq<Byte>, from: nat): (r: Option<nat>)
    ensures r.Some? ==> from <= r.value && Code3At(s, r.value) && forall k :: from <= k < r.value ==> !Code3At(s, k)
    ensures r.None? ==> forall k :: from <= k ==> !Code3At(s, k)
    decreases |s| - from
  {
    if from + 3 > |s| then None else if Code3At(s, from) then Some(from) else Find3(s, from + 1)
  }

  datatype StartCode = StartCode(pos: nat, length: nat)

  /** The leftmost four-byte code; failing that, the leftmost three-byte code. */
  function FirstCode(s: seq<Byte>): Option<StartCode> {
    match Find4(s, 0)
    case Some(p) => Some(StartCode(p, 4))
    case None => if Find3(s, 0).Some? then Some(StartCode(Find3(s, 0).value, 3)) else None
  }

  ghost predicate Has4(s: seq<Byte>) {
    exists i :: Code4At(s, i)
  }

  /** A start code is found exactly when 00 00 01 occurs: the leftmost four-byte code
      if there is one, otherwise the leftmost three-byte code. */
  lemma FirstCodeIsLeftmost(s: seq<Byte>)
    ensures FirstCode(s).Some? <==> exists i :: Code3At(s, i)
    ensures FirstCode(s).Some? ==>
              var c := FirstCode(s).value;
              if Has4(s) then c.length == 4 && Code4At(s, c.pos) && forall k :: 0 <= k < c.pos ==> !Code4At(s, k)
              else c.length == 3 && Code3At(s, c.pos) && forall k :: 0 <= k < c.pos ==> !Code3At(s, k)
  {
    if Find4(s, 0).Some? { assert Code3At(s, Find4(s, 0).value + 1); }
  }

  /** With no four-byte code about, the byte before a three-byte code is not zero,
      so the search never skips one. */
  lemma ExclusionIsDead(s: seq<Byte>, i: int)
    requires !Has4(s) && Code3At(s, i) && i > 0
    ensures s[i - 1] != 0
  {
    assert !Code4At(s, i - 1);
  }

  method FindStartCode(data: seq<Byte>) returns (pos: nat, length: nat, found: bool)
    ensures FirstCode(data) == if found then Some(StartCode(pos, length)) else None
    ensures if found then pos + length <= |data| else pos == length == 0
  {
    var i := 0;
    while i < |data| - 3
      invariant 0 <= i && Find4(data, 0) == Find4(data, i)
      invariant forall k :: 0 <= k < i ==> !Code4At(data, k)
    {
      if data[i] == 0 && data[i + 1] == 0 && data[i + 2] == 0 && data[i + 3] == 1 {
        return i, 4, true;
      }
      i := i + 1;
    }
    assert !Has4(data);
    i := 0;
    while i < |data| - 2
      invariant 0 <= i && Find3(data, 0) == Find3(data, i)
      invariant forall k :: 0 <= k < i ==> !Code3At(data, k)
    {
      if data[i] == 0 && data[i + 1] == 0 && data[i + 2] == 1 {
        if i > 0 { ExclusionIsDead(data, i); }
        if !(i > 0 && data[i - 1] == 0) { return i, 3, true; }
      }
      i := i + 1;
    }
    return 0, 0, false;
  }

  // ---------------------------------------------------------------------
  // FindSPSInAnnexB
  // ---------------------------------------------------------------------

  datatype Scan = Scanning(rest: seq<Byte>) | Sps(nal: seq<Byte>) | NoSps

  predicate IsSps(nal: seq<Byte>) {
    nal != [] && nal[0] % 32 == 7
  }

  /** The tail of one pass: only a three-byte code is skipped. */
  function SkipCode(r: seq<Byte>): seq<Byte> {
    if CODE3 <= r then (if |r| >= 4 && r[3] == 1 then r[4..] else r[3..]) else r
  }

  function Pass(rest: seq<Byte>): Scan {
    match FirstCode(rest)
    case None => if IsSps(rest) then Sps(rest) else NoSps
    case Some(c) =>
      if IsSps(rest[..c.pos]) then Sps(rest[..c.pos]) else Scanning(SkipCode(rest[c.pos..]))
  }

  function Passes(s: Scan, n: nat): Scan
    decreases n
  {
    if n == 0 || !s.Scanning? then s else Passes(Pass(s.rest), n - 1)
  }

  /** One round of the scan loop. */
  method ScanPass(rest: seq<Byte>) returns (s: Scan)
    ensures s == Pass(rest)
  {
    var nextPos, _, nextOk := FindStartCode(rest);
    if !nextOk {
      if |rest| > 0 && rest[0] % 32 == 7 { return Sps(rest); }
      return NoSps;
    }
    var nal := rest[..nextPos];
    if |nal| > 0 && nal[0] % 32 == 7 { return Sps(nal); }
    var remaining := rest[nextPos..];
    if |remaining| >= 3 && remaining[0] == 0 && remaining[1] == 0 && remaining[2] == 1 {
      assert CODE3 <= remaining;
      if |remaining| >= 4 && remaining[3] == 1 {
        remaining := remaining[4..];
      } else {
        remaining := remaining[3..];
      }
    }
    return Scanning(remaining);
  }

  /** The scan, given up after `limit` passes. */
  method FindSPSInAnnexB(payload: seq<Byte>, limit: nat) returns (s: Scan)
    ensures FirstCode(payload).None? ==> s == NoSps
    ensures FirstCode(payload).Some? ==>
              var c := FirstCode(payload).value; s == Passes(Scanning(payload[c.pos + c.length..]), limit)
  {
    var pos, length, ok := FindStartCode(payload);
    if !ok { return NoSps; }
    s := ScanFrom(payload[pos + length..], limit);
  }

  method ScanFrom(remaining: seq<Byte>, limit: nat) returns (s: Scan)
    ensures s == Passes(Scanning(remaining), limit)
  {
    s := Scanning(remaining);
    var n := 0;
    while n < limit && s.Scanning?
      invariant n <= limit && Passes(s, limit - n) == Passes(Scanning(remaining), limit)
    {
      s := ScanPass(s.rest);
      n := n + 1;
    }
  }

  ghost predicate Halts(rest: seq<Byte>) {
    exists n: nat :: !Passes(Scanning(rest), n).Scanning?
  }

  /** The scan of `rest` stops unless a four-byte code is in the way. */
  predicate ScanStops(rest: seq<Byte>) {
    match Find4(rest, 0)
    case None => true
    case Some(p) => p > 0 && rest[0] % 32 == 7
  }

  lemma SuffixHas4(s: seq<Byte>, k: nat)
    requires k <= |s| && !Has4(s)
    ensures !Has4(s[k..])
  {
    forall i ensures !Code4At(s[k..], i) {
      assert Code4At(s[k..], i) ==> Code4At(s, k + i);
    }
  }

  /** Without four-byte codes every pass that goes on gets shorter. */
  lemma PassShrinks(rest: seq<Byte>)
    requires !Has4(rest) && Pass(rest).Scanning?
    ensures |Pass(rest).rest| < |rest| && !Has4(Pass(rest).rest)
  {
    var p := Find3(rest, 0).value;
    var r := rest[p..];
    assert CODE3 <= r;
    var k := if |r| >= 4 && r[3] == 1 then 4 else 3;
    assert SkipCode(r) == rest[p + k..];
    SuffixHas4(rest, p + k);
  }

  lemma {:induction false} HaltsWithout4(rest: seq<Byte>) returns (n: nat)
    requires !Has4(rest)
    ensures !Passes(Scanning(rest), n).Scanning?
    decreases |rest|
  {
    if Pass(rest).Scanning? {
      PassShrinks(rest);
      var m := HaltsWithout4(Pass(rest).rest);
      n := m + 1;
    } else {
      n := 1;
    }
  }

  /** Once the rest starts with a four-byte code, a pass changes nothing. */
  lemma StuckAtCode4(rest: seq<Byte>)
    requires Code4At(rest, 0)
    ensures Pass(rest) == Scanning(rest)
  {
    assert rest[0..] == rest && rest[..0] == [];
  }

  lemma {:induction false} StuckForever(rest: seq<Byte>, n: nat)
    requires Pass(rest) == Scanning(rest)
    ensures Passes(Scanning(rest), n) == Scanning(rest)
  {
    if n > 0 { StuckForever(rest, n - 1); }
  }

  /** Exactly when the SPS scan comes to an end; when it does not, it repeats the
      same pass forever. */
  lemma ScanTermination(rest: seq<Byte>)
    ensures Halts(rest) <==> ScanStops(rest)
    ensures !ScanStops(rest) ==>
              var p := Find4(rest, 0).value;
              && Pass(rest) == Scanning(rest[p..]) && Pass(rest[p..]) == Scanning(rest[p..])
    ensures ScanStops(rest) && Find4(rest, 0).Some? ==> Pass(rest) == Sps(rest[..Find4(rest, 0).value])
  {
    match Find4(rest, 0)
    case None =>
      var n := HaltsWithout4(rest);
    case Some(p) =>
      var r := rest[p..];
      assert Code4At(r, 0);
      StuckAtCode4(r);
      if ScanStops(rest) {
        assert Passes(Scanning(rest), 1) == Sps(rest[..p]);
      } else {
        assert Pass(rest) == Scanning(r);
        forall n: nat ensures Passes(Scanning(rest), n).Scanning? {
          if n > 0 { StuckForever(r, n - 1); }
        }
      }
  }

  /** A configuration packet in the usual layout: the scan returns its SPS. */
  lemma ConfigPacketScan(sps: seq<Byte>, rest: seq<Byte>)
    requires IsSps(sps) && !Has4(sps + CODE4[..3])
    ensures Passes(Scanning(sps + CODE4 + rest), 1) == Sps(sps)
  {
    var s := sps + CODE4 + rest;
    assert Code4At(s, |sps|);
    forall k | 0 <= k < |sps| ensures !Code4At(s, k) {
      assert !Code4At(sps + CODE4[..3], k);
    }
    assert Find4(s, 0) == Some(|sps|);
    assert s[..|sps|] == sps;
  }

  function FirstSps(pieces: List<seq<Byte>>): Scan {
    match pieces
    case Nil => NoSps
    case Cons(h, t) => if IsSps(h) then Sps(h) else FirstSps(t)
  }

  /** A byte 01 right after a three-byte code is skipped with it. */
  function DropOne(piece: seq<Byte>): seq<Byte> {
    if [1] <= piece then piece[1..] else piece
  }

  function DropOnes(pieces: List<seq<Byte>>): List<seq<Byte>> {
    match pieces
    case Nil => Nil
    case Cons(h, t) => Cons(DropOne(h), DropOnes(t))
  }

  lemma {:induction false} CutWithoutCode(s: seq<Byte>)
    requires CodeFree(s)
    ensures CutAtCodes(s) == Cut(s, Nil)
    decreases |s|
  {
    if |s| >= 3 {
      assert !Code3At(s, 0);
      forall i ensures !Code3At(s[1..], i) {
        assert i >= 0 ==> !Code3At(s, i + 1);
      }
      CutWithoutCode(s[1..]);
      assert s == [s[0]] + s[1..];
    }
  }

  /** The leftmost three-byte code is where the first cut is made. */
  lemma CutAtFirst(s: seq<Byte>)
    requires Find3(s, 0).Some?
    ensures var p := Find3(s, 0).value;
            var c := CutAtCodes(s[p + 3..]);
            CutAtCodes(s) == Cut(s[..p], Cons(c.head, c.tail))
  {
    var p := Find3(s, 0).value;
    forall i ensures !Code3At(s[..p], i) {
      assert 0 <= i < p ==> !Code3At(s, i);
    }
    CutWithoutCode(s[..p]);
    CutSplit(s[..p], s[p + 3..]);
    assert s == s[..p] + CODE3 + s[p + 3..];
  }

  /** A byte 01 is never part of the code at the head, so it stays in the first piece. */
  lemma CutHead(s: seq<Byte>)
    ensures CutAtCodes(DropOne(s)) == Cut(DropOne(CutAtCodes(s).head), CutAtCodes(s).tail)
  {
    if [1] <= s {
      CutByte(s);
      var c := CutAtCodes(s[1..]);
      assert ([s[0]] + c.head)[1..] == c.head;
    } else if s != [] && !Code3At(s, 0) {
      CutByte(s);
    }
  }

  /** A pass that meets a three-byte code at p. */
  lemma PassAtCode(rest: seq<Byte>, p: nat)
    requires !Has4(rest) && Find3(rest, 0) == Some(p)
    ensures Pass(rest) == if IsSps(rest[..p]) then Sps(rest[..p]) else Scanning(DropOne(rest[p + 3..]))
    ensures !Has4(DropOne(rest[p + 3..]))
  {
    var r := rest[p..];
    assert CODE3 <= r && r[3..] == rest[p + 3..];
    assert |r| >= 4 ==> r[3] == rest[p + 3] && r[4..] == rest[p + 3..][1..];
    SuffixHas4(rest, p + 3);
    if rest[p + 3..] != [] { SuffixHas4(rest[p + 3..], 1); }
  }

  /** One pass either decides on the first piece or goes on right after its start code. */
  lemma PassOnFirstPiece(rest: seq<Byte>)
    requires !Has4(rest)
    ensures var c := CutAtCodes(rest);
            if IsSps(c.head) || c.tail == Nil then
              Pass(rest) == (if IsSps(c.head) then Sps(c.head) else NoSps)
            else
              && Pass(rest).Scanning? && |Pass(rest).rest| < |rest| && !Has4(Pass(rest).rest)
              && CutAtCodes(Pass(rest).rest) == Cut(DropOne(c.tail.head), c.tail.tail)
  {
    match Find3(rest, 0)
    case None => CutWithoutCode(rest);
    case Some(p) =>
      CutAtFirst(rest);
      CutHead(rest[p + 3..]);
      PassAtCode(rest, p);
  }

  /** Without four-byte codes the scan returns exactly the first SPS among the pieces
      between start codes, a byte 01 in front of a piece not counted. */
  lemma {:induction false} ScanFindsFirstSps(rest: seq<Byte>) returns (n: nat)
    requires !Has4(rest)
    ensures var c := CutAtCodes(rest);
            Passes(Scanning(rest), n) == FirstSps(Cons(c.head, DropOnes(c.tail)))
    decreases |rest|
  {
    PassOnFirstPiece(rest);
    n := 1;
    if Pass(rest).Scanning? {
      var m := ScanFindsFirstSps(Pass(rest).rest);
      n := m + 1;
    }
  }
}
