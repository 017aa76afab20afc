/** The RED sender: each video packet carries a redundant copy of the one before.

  Packet layout and the reference decoder follow section 3 of RFC 2198.
  Timestamps live modulo 2^32.
*/
module RedFormat {
  import opened Common
  import opened Bytes

  const MAX_BLOCK := 0x3FF       // 10-bit block length
  const MAX_OFFSET := 0x3FFF     // 14-bit timestamp offset
  const MAX_RED_PACKET := 1400

  /** How far `to` is ahead of `from`, modulo 2^32. */
  function Distance(from: U32, to: U32): U32 {
    (to - from) % TWO32
  }

  function Back(ts: U32, offset: nat): U32 {
    (ts - offset) % TWO32
  }

  /** buildREDPayload.  The bit fields F(1) PT(7) offset(14) length(10) are packed
      into four bytes. */
  function Build(primaryPT: Byte, prevPay: seq<Byte>, prevTS: U32, currTS: U32, payload: seq<Byte>): seq<Byte> {
    if prevPay == [] then
      [primaryPT % 128] + payload
    else
      var offset := Min(Distance(prevTS, currTS), MAX_OFFSET);
      var length := Min(|prevPay| % TWO16, MAX_BLOCK);
      [128 + primaryPT % 128,
       offset / 64 % 256,
       offset % 64 * 4 + length / 256 % 4,
       length % 256,
       primaryPT % 128] + prevPay[..Min(length, |prevPay|)] + payload
  }

  // ---------------------------------------------------------------------
  // Reference decoder, for any number of redundant blocks
  // ---------------------------------------------------------------------

  datatype Header = Header(pt: Byte, offset: nat, length: nat)
  datatype Headers = Headers(redundant: seq<Header>, primaryPT: Byte, body: seq<Byte>)
  datatype Block = Block(pt: Byte, ts: U32, data: seq<Byte>)

  function ReadHeaders(buf: seq<Byte>): Option<Headers> {
    if buf == [] then None
    else if buf[0] < 128 then Some(Headers([], buf[0], buf[1..]))
    else if |buf| < 4 then None
    else
      var h := Header(buf[0] - 128, (buf[1] as int) * 64 + (buf[2] as int) / 4,
                      (buf[2] as int) % 4 * 256 + buf[3] as int);
      match ReadHeaders(buf[4..])
      case None => None
      case Some(rest) => Some(rest.(redundant := [h] + rest.redundant))
  }

  function ReadBlocks(ts: U32, hs: seq<Header>, primaryPT: Byte, body: seq<Byte>): Option<seq<Block>> {
    if hs == [] then Some([Block(primaryPT, ts, body)])
    else if |body| < hs[0].length then None
    else match ReadBlocks(ts, hs[1..], primaryPT, body[hs[0].length..])
      case None => None
      case Some(rest) => Some([Block(hs[0].pt, Back(ts, hs[0].offset), body[..hs[0].length])] + rest)
  }

  function Decode(ts: U32, buf: seq<Byte>): Option<seq<Block>> {
    match ReadHeaders(buf)
    case None => None
    case Some(h) => ReadBlocks(ts, h.redundant, h.primaryPT, h.body)
  }

  /** The fields of a redundant block's header survive the packing. */
  lemma HeaderRoundTrip(offset: nat, length: nat, b1: Byte, b2: Byte, b3: Byte)
    requires offset <= MAX_OFFSET && length <= MAX_BLOCK
    requires b1 == offset / 64 % 256 && b2 == offset % 64 * 4 + length / 256 % 4 && b3 == length % 256
    ensures (b1 as int) * 64 + (b2 as int) / 4 == offset
    ensures (b2 as int) % 4 * 256 + b3 as int == length
  {}

  lemma ReadTwoHeaders(buf: seq<Byte>, h: Header, pt: Byte, body: seq<Byte>)
    requires |buf| >= 5 && pt < 128 && buf[0] == 128 + h.pt && buf[4..] == [pt] + body
    requires h.offset == (buf[1] as int) * 64 + (buf[2] as int) / 4
    requires h.length == (buf[2] as int) % 4 * 256 + buf[3] as int
    ensures ReadHeaders(buf) == Some(Headers([h], pt, body))
  {
    var tail := buf[4..];
    assert tail[1..] == body;
    assert ReadHeaders(tail) == Some(Headers([], pt, body));
    assert [h] + [] == [h];
  }

  /** The decoder inverts the encoder on every block that fits its length field. */
  lemma DecodeBuild(pt: Byte, prevPay: seq<Byte>, prevTS: U32, currTS: U32, payload: seq<Byte>)
    requires |prevPay| <= MAX_BLOCK
    ensures Decode(currTS, Build(pt, prevPay, prevTS, currTS, payload))
         == Some((if prevPay == [] then [] else
                    [Block(pt % 128, Back(currTS, Min(Distance(prevTS, currTS), MAX_OFFSET)), prevPay)])
                 + [Block(pt % 128, currTS, payload)])
    ensures |Build(pt, prevPay, prevTS, currTS, payload)|
         == |payload| + if prevPay == [] then 1 else 5 + |prevPay|
  {
    var buf := Build(pt, prevPay, prevTS, currTS, payload);
    if prevPay == [] {
      assert buf[1..] == payload;
      assert ReadHeaders(buf) == Some(Headers([], pt % 128, payload));
      assert [] + [Block(pt % 128, currTS, payload)] == [Block(pt % 128, currTS, payload)];
    } else {
      var h := Header(pt % 128, Min(Distance(prevTS, currTS), MAX_OFFSET), |prevPay|);
      var body := prevPay + payload;
      assert prevPay[..|prevPay|] == prevPay;
      assert buf[4..] == [pt % 128] + body;
      HeaderRoundTrip(h.offset, h.length, buf[1], buf[2], buf[3]);
      ReadTwoHeaders(buf, h, pt % 128, body);
      assert body[..h.length] == prevPay && body[h.length..] == payload;
      assert [h][1..] == [];
      assert ReadBlocks(currTS, [], pt % 128, payload) == Some([Block(pt % 128, currTS, payload)]);
      assert ReadBlocks(currTS, [h], pt % 128, body)
          == Some([Block(h.pt, Back(currTS, h.offset), prevPay)] + [Block(pt % 128, currTS, payload)]);
    }
  }

  /** The redundant timestamp is the true one exactly when it fits the offset field. */
  lemma OffsetExact(prevTS: U32, currTS: U32)
    ensures Back(currTS, Min(Distance(prevTS, currTS), MAX_OFFSET)) == prevTS
       <==> Distance(prevTS, currTS) <= MAX_OFFSET
  {}
}

module RedSenderModel {
  import opened Common
  import opened Bytes
  import opened RedFormat

  datatype Packet = Packet(pt: Byte, ts: U32, payload: seq<Byte>)

  datatype Sent = Plain(p: Packet) | Red(p: Packet)

  datatype Remembered = Remembered(payload: seq<Byte>, ts: U32)

  datatype State = State(
    enabled: bool, ready: bool, prev: Option<Remembered>, primaryPT: Byte, redPT: Byte)

  predicate Active(s: State) {
    s.enabled && s.ready
  }

  /** What a written packet leaves behind for the next one. */
  function Keep(p: Packet): Option<Remembered> {
    if |p.payload| <= MAX_BLOCK then Some(Remembered(p.payload, p.ts)) else None
  }

  function Encode(s: State, p: Packet): Sent {
    var redLen := |p.payload| + if s.prev.Some? then 5 + |s.prev.value.payload| else 1;
    if redLen > MAX_RED_PACKET then Plain(p)
    else
      var r := s.prev;
      Red(Packet(s.redPT, p.ts,
                 Build(s.primaryPT, if r.Some? then r.value.payload else [], if r.Some? then r.value.ts else 0,
                       p.ts, p.payload)))
  }

  function WriteStep(s: State, p: Packet): (State, Sent) {
    if !Active(s) then (s, Plain(p)) else (s.(prev := Keep(p)), Encode(s, p))
  }

  class RedSender {
    var enabled: bool
    var ready: bool
    var prevPay: Option<seq<Byte>>    // None is nil, which differs from an empty slice
    var prevTS: U32
    var primaryPT: Byte
    var redPT: Byte

    ghost function Abs(): State
      reads this
    {
      State(enabled, ready, if prevPay.Some? then Some(Remembered(prevPay.value, prevTS)) else None,
            primaryPT, redPT)
    }

    constructor (primaryPT: Byte, redPT: Byte)
      ensures Abs() == State(false, false, None, primaryPT, redPT)
    {
      enabled, ready, prevPay, prevTS := false, false, None, 0;
      this.primaryPT, this.redPT := primaryPT, redPT;
    }

    method SetEnabled(v: bool)
      modifies this
      ensures Abs() == old(Abs()).(enabled := v, prev := if v then old(Abs()).prev else None)
    {
      enabled := v;
      if !v { prevPay := None; }
    }

    method SetPayloadTypes(primaryPT: Byte, redPT: Byte)
      modifies this
      ensures Abs() == old(Abs()).(primaryPT := primaryPT, redPT := redPT,
                                   ready := primaryPT != 0 && redPT != 0)
    {
      this.primaryPT, this.redPT := primaryPT, redPT;
      ready := primaryPT != 0 && redPT != 0;
    }

    method Write(p: Packet) returns (out: Sent)
      modifies this
      ensures (Abs(), out) == WriteStep(old(Abs()), p)
    {
      if !enabled || !ready { return Plain(p); }
      var pay, ts := prevPay, prevTS;
      if |p.payload| <= MAX_BLOCK {
        prevPay, prevTS := Some(p.payload), p.ts;
      } else {
        prevPay := None;
      }
      var redLen := 1 + |p.payload|;
      if pay.Some? { redLen := 5 + |pay.value| + |p.payload|; }
      if redLen > MAX_RED_PACKET { return Plain(p); }
      var bytes := Build(primaryPT, if pay.Some? then pay.value else [],
                         if pay.Some? then ts else 0, p.ts, p.payload);
      return Red(Packet(redPT, p.ts, bytes));
    }
  }

  // ---------------------------------------------------------------------
  // Runs
  // ---------------------------------------------------------------------

  datatype Event = WritePacket(p: Packet) | Enable(v: bool) | SetTypes(primaryPT: Byte, redPT: Byte)

  function After(s: State, e: Event): State {
    match e
    case WritePacket(p) => WriteStep(s, p).0
    case Enable(v) => s.(enabled := v, prev := if v then s.prev else None)
    case SetTypes(h, r) => s.(primaryPT := h, redPT := r, ready := h != 0 && r != 0)
  }

  function StateAfter(s: State, events: seq<Event>): State {
    if events == [] then s
    else After(StateAfter(s, events[..|events| - 1]), events[|events| - 1])
  }

  const Fresh := State(false, false, None, 0, 0)

  /** A remembered block always fits its length field. */
  ghost predicate Bounded(s: State) {
    s.prev.Some? ==> |s.prev.value.payload| <= MAX_BLOCK
  }

  lemma {:induction false} StateBounded(s: State, events: seq<Event>)
    requires Bounded(s)
    ensures Bounded(StateAfter(s, events))
  {
    if events != [] { StateBounded(s, events[..|events| - 1]); }
  }

  /** Every RED packet of every run fits in 1400 bytes and decodes to the primary
      payload preceded by what was remembered, if that is not empty. */
  lemma RedPacketsDecode(events: seq<Event>, p: Packet)
    ensures var s := StateAfter(Fresh, events);
            var out := WriteStep(s, p).1;
            && (out.Plain? ==> out.p == p)
            && (out.Red? ==>
                 && |out.p.payload| <= MAX_RED_PACKET
                 && out.p.ts == p.ts && out.p.pt == s.redPT
                 && Decode(out.p.ts, out.p.payload) ==
                      Some((if s.prev.None? || s.prev.value.payload == [] then [] else
                              [Block(s.primaryPT % 128,
                                     Back(p.ts, Min(Distance(s.prev.value.ts, p.ts), MAX_OFFSET)),
                                     s.prev.value.payload)])
                           + [Block(s.primaryPT % 128, p.ts, p.payload)]))
  {
    var s := StateAfter(Fresh, events);
    StateBounded(Fresh, events);
    var r := s.prev;
    DecodeBuild(s.primaryPT, if r.Some? then r.value.payload else [],
                if r.Some? then r.value.ts else 0, p.ts, p.payload);
  }

  /** The packet last written while RED was active, unless RED was switched off since. */
  function LastActive(events: seq<Event>): Option<Packet> {
    if events == [] then None
    else
      var n := |events| - 1;
      match events[n]
      case Enable(v) => if v then LastActive(events[..n]) else None
      case SetTypes(_, _) => LastActive(events[..n])
      case WritePacket(p) => if Active(StateAfter(Fresh, events[..n])) then Some(p) else LastActive(events[..n])
  }

  /** What is sent redundantly is that packet and no other, if it fits a block. */
  lemma {:induction false} RemembersLastActive(events: seq<Event>)
    ensures StateAfter(Fresh, events).prev ==
            match LastActive(events) { case None => None case Some(p) => Keep(p) }
  {
    if events != [] { RemembersLastActive(events[..|events| - 1]); }
  }

  // ---------------------------------------------------------------------
  // When a packet is RED
  // ---------------------------------------------------------------------

  /** The newest switch; RED starts switched off. */
  function SwitchedOn(events: seq<Event>): bool {
    if events == [] then false
    else
      var n := |events| - 1;
      if events[n].Enable? then events[n].v else SwitchedOn(events[..n])
  }

  /** The newest payload types, as (primary, RED); zero means not negotiated. */
  function Types(events: seq<Event>): (Byte, Byte) {
    if events == [] then (0, 0)
    else
      var n := |events| - 1;
      if events[n].SetTypes? then (events[n].primaryPT, events[n].redPT) else Types(events[..n])
  }

  predicate RedOn(events: seq<Event>) {
    SwitchedOn(events) && Types(events).0 != 0 && Types(events).1 != 0
  }

  /** The packet last written while RED was on, unless it was switched off since. */
  function Previous(events: seq<Event>): Option<Packet> {
    if events == [] then None
    else
      var n := |events| - 1;
      match events[n]
      case Enable(v) => if v then Previous(events[..n]) else None
      case SetTypes(_, _) => Previous(events[..n])
      case WritePacket(p) => if RedOn(events[..n]) then Some(p) else Previous(events[..n])
  }

  /** The payload of the RED packet: headers, the previous packet if it fits a block of
      1023 bytes, and the packet itself. */
  function RedSize(events: seq<Event>, p: Packet): nat {
    var r := Previous(events);
    if r.Some? && |r.value.payload| <= 1023 then 5 + |r.value.payload| + |p.payload| else 1 + |p.payload|
  }

  lemma {:induction false} StateIsHistory(events: seq<Event>)
    ensures var s := StateAfter(Fresh, events);
            && s.enabled == SwitchedOn(events) && (s.primaryPT, s.redPT) == Types(events)
            && (s.ready <==> Types(events).0 != 0 && Types(events).1 != 0)
            && LastActive(events) == Previous(events)
  {
    if events != [] { StateIsHistory(events[..|events| - 1]); }
  }

  /** A packet goes out as RED, exactly: when RED was switched on last, both payload types
      are negotiated and the RED packet is at most 1400 bytes.  It then has the negotiated
      RED type and the packet's own timestamp; every other packet goes out unchanged. */
  lemma RedExactly(events: seq<Event>, p: Packet)
    ensures var out := WriteStep(StateAfter(Fresh, events), p).1;
            && (out.Red? <==> RedOn(events) && RedSize(events, p) <= 1400)
            && (out.Red? ==> out.p.pt == Types(events).1 && out.p.ts == p.ts)
            && (out.Plain? ==> out.p == p)
  {
    StateIsHistory(events);
    RemembersLastActive(events);
    StateBounded(Fresh, events);
    var s := StateAfter(Fresh, events);
    var r := s.prev;
    DecodeBuild(s.primaryPT, if r.Some? then r.value.payload else [],
                if r.Some? then r.value.ts else 0, p.ts, p.payload);
  }

  // ---------------------------------------------------------------------
  // The remembered packet is the predecessor
  // ---------------------------------------------------------------------

  function LastWritten(events: seq<Event>): Option<Packet> {
    if events == [] then None
    else
      var n := |events| - 1;
      if events[n].WritePacket? then Some(events[n].p) else LastWritten(events[..n])
  }

  /** Whatever is remembered, the sender is active and it is the packet written last. */
  ghost predicate UpToDate(events: seq<Event>) {
    LastActive(events).Some? ==> Active(StateAfter(Fresh, events)) && LastActive(events) == LastWritten(events)
  }

  /** The payload types are taken away while a packet is remembered. */
  predicate Unreadies(events: seq<Event>, e: Event) {
    e.SetTypes? && (e.primaryPT == 0 || e.redPT == 0) && LastActive(events).Some?
  }

  /** The one event that leaves an older packet behind, exactly. */
  lemma UpToDateExactly(events: seq<Event>, e: Event)
    requires UpToDate(events)
    ensures UpToDate(events + [e]) <==> !Unreadies(events, e)
  {
    assert (events + [e])[..|events|] == events;
  }

  /** HandleOffer is the only caller of SetPayloadTypes, and runs once for each peer. */
  ghost predicate OneNegotiation(events: seq<Event>) {
    forall i, j :: 0 <= i < j < |events| && events[i].SetTypes? ==> !events[j].SetTypes?
  }

  lemma {:induction false} UnnegotiatedNotReady(events: seq<Event>)
    requires forall i :: 0 <= i < |events| ==> !events[i].SetTypes?
    ensures !StateAfter(Fresh, events).ready && LastActive(events) == None
  {
    if events != [] { UnnegotiatedNotReady(events[..|events| - 1]); }
  }

  /** Under any switching of RED on and off, what is sent redundantly is the packet
      written last, or nothing. */
  lemma {:induction false} RemembersPredecessor(events: seq<Event>)
    requires OneNegotiation(events)
    ensures LastActive(events).Some? ==>
              Active(StateAfter(Fresh, events)) && LastActive(events) == LastWritten(events)
  {
    if events != [] {
      var n := |events| - 1;
      RemembersPredecessor(events[..n]);
      if events[n].SetTypes? { UnnegotiatedNotReady(events[..n]); }
      UpToDateExactly(events[..n], events[n]);
      assert events[..n] + [events[n]] == events;
    }
  }

  // ---------------------------------------------------------------------
  // Loss recovery
  // ---------------------------------------------------------------------

  /** The state in which packet i is written, when RED stays active. */
  function StateBefore(s: State, packets: seq<Packet>, i: nat): State
    requires i <= |packets|
  {
    if i == 0 then s else s.(prev := Keep(packets[i - 1]))
  }

  function SendAll(s: State, packets: seq<Packet>): seq<Sent>
    decreases |packets|
  {
    if packets == [] then []
    else [WriteStep(s, packets[0]).1] + SendAll(WriteStep(s, packets[0]).0, packets[1..])
  }

  lemma {:induction false} SendAllAt(s: State, packets: seq<Packet>, i: nat)
    requires Active(s) && i < |packets|
    ensures |SendAll(s, packets)| == |packets|
    ensures SendAll(s, packets)[i] == WriteStep(StateBefore(s, packets, i), packets[i]).1
    decreases |packets|
  {
    var t := WriteStep(s, packets[0]).0;
    if |packets| > 1 {
      SendAllAt(t, packets[1..], if i == 0 then 0 else i - 1);
      if i > 0 { assert StateBefore(t, packets[1..], i - 1) == StateBefore(s, packets, i); }
    }
  }

  /** The payload a received packet carries itself. */
  function Primary(out: Sent): Option<Remembered> {
    match out
    case Plain(p) => Some(Remembered(p.payload, p.ts))
    case Red(p) =>
      match Decode(p.ts, p.payload)
      case None => None
      case Some(bs) => if bs == [] then None else Some(Remembered(bs[|bs| - 1].data, bs[|bs| - 1].ts))
  }

  /** The redundant copy a received packet carries, if any. */
  function Redundant(out: Sent): Option<Remembered> {
    match out
    case Plain(p) => None
    case Red(p) =>
      match Decode(p.ts, p.payload)
      case None => None
      case Some(bs) => if |bs| > 1 then Some(Remembered(bs[0].data, bs[0].ts)) else None
  }

  /** What a receiver holding the packets in `arrived` knows about packet i. */
  function Received(sent: seq<Sent>, arrived: set<nat>, i: nat): Option<Remembered>
    requires i < |sent|
  {
    if i in arrived then Primary(sent[i])
    else if i + 1 < |sent| && i + 1 in arrived then Redundant(sent[i + 1])
    else None
  }

  lemma PacketCarries(s: State, p: Packet)
    requires Bounded(s)
    ensures Primary(Encode(s, p)) == Some(Remembered(p.payload, p.ts))
    ensures Redundant(Encode(s, p))
         == if s.prev.Some? && s.prev.value.payload != []
               && 5 + |s.prev.value.payload| + |p.payload| <= MAX_RED_PACKET
            then Some(Remembered(s.prev.value.payload,
                                 Back(p.ts, Min(Distance(s.prev.value.ts, p.ts), MAX_OFFSET))))
            else None
  {
    var r := s.prev;
    DecodeBuild(s.primaryPT, if r.Some? then r.value.payload else [],
                if r.Some? then r.value.ts else 0, p.ts, p.payload);
  }

  predicate Recoverable(packets: seq<Packet>, i: nat)
    requires i + 1 < |packets|
  {
    1 <= |packets[i].payload| <= MAX_BLOCK
    && 5 + |packets[i].payload| + |packets[i + 1].payload| <= MAX_RED_PACKET
  }

  /** For every set of losses: a packet that arrived is read back exactly; a lost
      one is rebuilt if and only if its successor arrived and the two fit in one RED
      packet.  The rebuilt payload is always right, its timestamp exactly when the
      two packets are at most 0x3FFF ticks apart. */
  lemma LossRecovery(s: State, packets: seq<Packet>, arrived: set<nat>, i: nat)
    requires Active(s) && Bounded(s) && i < |packets|
    ensures |SendAll(s, packets)| == |packets|
    ensures var r := Received(SendAll(s, packets), arrived, i);
            if i in arrived then r == Some(Remembered(packets[i].payload, packets[i].ts))
            else
              && (r.Some? <==> i + 1 < |packets| && i + 1 in arrived && Recoverable(packets, i))
              && (r.Some? ==>
                    && r.value.payload == packets[i].payload
                    && (r.value.ts == packets[i].ts
                        <==> Distance(packets[i].ts, packets[i + 1].ts) <= MAX_OFFSET))
  {
    SendAllAt(s, packets, i);
    PacketCarries(StateBefore(s, packets, i), packets[i]);
    if i + 1 < |packets| {
      SendAllAt(s, packets, i + 1);
      PacketCarries(StateBefore(s, packets, i + 1), packets[i + 1]);
      OffsetExact(packets[i].ts, packets[i + 1].ts);
    }
  }

  // ---------------------------------------------------------------------
  // Loss recovery over runs in which RED is switched on and off
  // ---------------------------------------------------------------------

  /** The packet that event i puts on the wire. */
  function SentAt(events: seq<Event>, i: nat): Sent
    requires i < |events| && events[i].WritePacket?
  {
    WriteStep(StateAfter(Fresh, events[..i]), events[i].p).1
  }

  /** Event j is the next write after event i. */
  predicate NextWrite(events: seq<Event>, i: nat, j: nat) {
    i < j < |events| && events[i].WritePacket? && events[j].WritePacket?
    && forall k :: i < k < j ==> !events[k].WritePacket?
  }

  /** RED was on when packet i was written and was not switched off before event j. */
  predicate KeptActive(events: seq<Event>, i: nat, j: nat)
    requires i < j <= |events|
  {
    Active(StateAfter(Fresh, events[..i])) && forall k :: i < k < j ==> events[k] != Enable(false)
  }

  /** What is remembered when no packet was written after event i. */
  lemma {:induction false} RememberedSince(events: seq<Event>, i: nat, j: nat)
    requires OneNegotiation(events) && i < j <= |events| && events[i].WritePacket?
    requires forall k :: i < k < j ==> !events[k].WritePacket?
    ensures LastActive(events[..j]) == if KeptActive(events, i, j) then Some(events[i].p) else None
    decreases j
  {
    assert events[..j][..j - 1] == events[..j - 1];
    if j == i + 1 {
      RemembersPredecessor(events[..i]);
    } else {
      RememberedSince(events, i, j - 1);
      assert KeptActive(events, i, j) <==> KeptActive(events, i, j - 1) && events[j - 1] != Enable(false);
    }
  }

  /** For every run: the next packet written gives back a lost one if and only if RED
      was on when the lost one was written and was not switched off in between, and the
      two fit in one RED packet.  The rebuilt payload is always right, its timestamp
      exactly when the two packets are at most 0x3FFF ticks apart. */
  lemma RunLossRecovery(events: seq<Event>, i: nat, j: nat)
    requires OneNegotiation(events) && NextWrite(events, i, j)
    ensures var p, q, r := events[i].p, events[j].p, Redundant(SentAt(events, j));
            && Primary(SentAt(events, j)) == Some(Remembered(q.payload, q.ts))
            && (r.Some? <==> KeptActive(events, i, j) && 1 <= |p.payload| <= MAX_BLOCK
                             && 5 + |p.payload| + |q.payload| <= MAX_RED_PACKET)
            && (r.Some? ==> r.value.payload == p.payload
                            && (r.value.ts == p.ts <==> Distance(p.ts, q.ts) <= MAX_OFFSET))
  {
    var s := StateAfter(Fresh, events[..j]);
    RememberedSince(events, i, j);
    RemembersPredecessor(events[..j]);
    RemembersLastActive(events[..j]);
    StateBounded(Fresh, events[..j]);
    PacketCarries(s, events[j].p);
    OffsetExact(events[i].p.ts, events[j].p.ts);
  }
}
