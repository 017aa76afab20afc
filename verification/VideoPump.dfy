/** RTP timestamps of the video pump: a 90 kHz clock modulo 2^32. */
module VideoPump {
  import opened Common
  import opened Bytes
  import opened RedFormat
  import opened VideoTiming
  import opened PauseBuffer
  import opened VideoForwarder
  import opened VideoRuns

  function Ticks(pts: nat): nat {
    pts / 1000 * 90 / 1000
  }

  function RtpTimestamp(pts: nat): U32 {
    Ticks(pts) % TWO32
  }

  lemma TicksMonotone(a: nat, b: nat)
    requires a <= b
    ensures Ticks(a) <= Ticks(b)
    ensures 1000 * (Ticks(b) - Ticks(a)) < 90 * (b / 1000 - a / 1000) + 1000
    ensures 90 * (b / 1000 - a / 1000) < 1000 * (Ticks(b) - Ticks(a)) + 1000
  {}

  lemma ModularDistance(x: nat, d: nat)
    requires d < TWO32
    ensures ((x + d) % TWO32 - x % TWO32) % TWO32 == d
  {
    var r := x % TWO32;
    if r + d < TWO32 {
      assert (x + d) % TWO32 == r + d;
    } else {
      assert (x + d) % TWO32 == r + d - TWO32;
    }
  }

  lemma RtpDistance(a: nat, b: nat)
    requires a <= b && Ticks(b) - Ticks(a) < TWO32
    ensures Distance(RtpTimestamp(a), RtpTimestamp(b)) == Ticks(b) - Ticks(a)
  {
    TicksMonotone(a, b);
    ModularDistance(Ticks(a), Ticks(b) - Ticks(a));
  }

  ghost predicate NonNegative(s: State) {
    s.norm.lastNorm >= 0 && forall b :: b in s.buf ==> b.pts >= 0
  }

  lemma ForwardNonNegative(h264: bool, s: State, p: Packet, paused: bool)
    requires p.Media? && NonNegative(s)
    ensures NonNegative(Forward(h264, s, p, paused).0)
    ensures forall o :: o in Forward(h264, s, p, paused).1 ==> o.sample.pts >= 0
  {
    assert NormalizeStep(s.norm, p.pts).lastNorm >= 0;
    FlushShape(s.buf, s.configNAL);
    FirstKeyIn(s.buf);
  }

  lemma {:induction false} EmittedNonNegative(h264: bool, events: seq<Event>)
    ensures NonNegative(After(h264, events))
    ensures forall o :: o in Emitted(h264, events) ==> o.sample.pts >= 0
  {
    if events != [] {
      var n := |events| - 1;
      EmittedNonNegative(h264, events[..n]);
      if IsFrame(h264, events[n]) {
        ForwardNonNegative(h264, After(h264, events[..n]), events[n].packet, events[n].paused);
      }
    }
  }

  /** RTP time never runs backwards over the wrap-around: between any two samples on
      VideoCh less than 2^32 ticks apart the modular distance is the true one, and
      neighbours up to 182 ms apart fit the offset field of a RED header. */
  lemma RtpFollowsVideo(h264: bool, events: seq<Event>, i: nat, j: nat)
    requires i < j < |Emitted(h264, events)|
    ensures var a, b := Emitted(h264, events)[i].sample.pts, Emitted(h264, events)[j].sample.pts;
            && 0 <= a <= b
            && (Ticks(b) - Ticks(a) < TWO32 ==> Distance(RtpTimestamp(a), RtpTimestamp(b)) == Ticks(b) - Ticks(a))
            && (b - a <= 182 * MILLISECOND ==> Distance(RtpTimestamp(a), RtpTimestamp(b)) <= MAX_OFFSET)
  {
    EmittedInOrder(h264, events);
    EmittedNonNegative(h264, events);
    var outs := Emitted(h264, events);
    assert outs[i] in outs && outs[j] in outs;
    var a, b := outs[i].sample.pts, outs[j].sample.pts;
    TicksMonotone(a, b);
    if Ticks(b) - Ticks(a) < TWO32 { RtpDistance(a, b); }
  }
}
