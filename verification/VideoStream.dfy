/** The video path from the bytes of the socket to the samples for the media pump. */
module VideoStream {
  import opened Bytes
  import opened AnnexB
  import opened VideoRuns
  import opened VideoTiming
  import opened PauseBuffer
  import opened Common
  import VideoForwarder
  import PacketReader

  type Frame = PacketReader.Frame
  type Out = VideoForwarder.Out
  type Session = VideoForwarder.State

  /** What forwardVideo handles of a byte stream; `paused` is the pause flag as read for
      each packet. */
  function Events(s: seq<Byte>, paused: nat -> bool): seq<Event> {
    EventsOf(PacketReader.ReadAll(s).0, paused)
  }

  function EventsOf(frames: seq<Frame>, paused: nat -> bool): seq<Event> {
    seq(|frames|, i requires 0 <= i < |frames| => Event(PacketReader.ToVideo(frames[i]), paused(i)))
  }

  lemma {:induction false} FramesWellFormed(s: seq<Byte>, i: nat)
    requires i < |PacketReader.ReadAll(s).0|
    ensures VideoForwarder.WellFormed(PacketReader.ToVideo(PacketReader.ReadAll(s).0[i]))
    decreases |s|
  {
    PacketReader.ReadWellFormed(s);
    if i > 0 { FramesWellFormed(PacketReader.Read(s).rest, i - 1); }
  }

  lemma PrefixWellFormed(s: seq<Byte>, paused: nat -> bool, n: nat)
    requires n <= |Events(s, paused)|
    ensures AllWellFormed(Events(s, paused)[..n])
  {
    forall i | 0 <= i < n ensures VideoForwarder.WellFormed(Events(s, paused)[..n][i].packet) {
      FramesWellFormed(s, i);
    }
  }

  /** An event carries a frame's own bits, payload and time. */
  predicate Carries(e: Event, f: Frame) {
    && (f.SessionMeta? <==> e.packet.SessionMeta?)
    && (f.Media? ==>
          && (e.packet.config <==> f.config) && (e.packet.keyFrame <==> f.keyFrame)
          && e.packet.payload == f.payload && e.packet.pts == 1000 * f.pts)
  }

  /** What a sender of frames wrote is what is read, frame by frame. */
  lemma StreamEvents(frames: seq<PacketReader.WireFrame>, paused: nat -> bool)
    ensures var events := Events(PacketReader.Stream(frames), paused);
            |events| == |frames|
            && forall i :: 0 <= i < |frames| ==> Carries(events[i], frames[i]) && events[i].paused == paused(i)
  {
    PacketReader.StreamReadsBack(frames);
    var events := Events(PacketReader.Stream(frames), paused);
    forall i | 0 <= i < |frames| ensures Carries(events[i], frames[i]) && events[i].paused == paused(i) {
      FrameCarries(frames[i], paused(i));
    }
  }

  lemma FrameCarries(f: Frame, paused: bool)
    ensures Carries(Event(PacketReader.ToVideo(f), paused), f)
  {}

  // ---------------------------------------------------------------------
  // In the wire's own fields
  // ---------------------------------------------------------------------

  /** A media frame that is shown: with H.264 a configuration is not. */
  predicate Shown(h264: bool, f: Frame) {
    f.Media? && !(h264 && f.config)
  }

  /** How many frames there are up to the newest configuration, which is the last of them;
      none if there is no configuration. */
  function ConfigEnd(frames: seq<Frame>): (k: nat)
    ensures k <= |frames| && (k > 0 ==> frames[k - 1].Media? && frames[k - 1].config)
    ensures forall i :: k <= i < |frames| ==> !(frames[i].Media? && frames[i].config)
  {
    if frames == [] then 0
    else
      var n := |frames| - 1;
      if frames[n].Media? && frames[n].config then n + 1 else ConfigEnd(frames[..n])
  }

  function WireConfig(frames: seq<Frame>): seq<Byte> {
    var k := ConfigEnd(frames);
    if k == 0 then [] else frames[k - 1].payload
  }

  /** The payload with a start code in front. */
  function Bare(h264: bool, payload: seq<Byte>): seq<Byte> {
    if !h264 || [0, 0, 0, 1] <= payload || [0, 0, 1] <= payload then payload else [0, 0, 0, 1] + payload
  }

  /** The times of the frames shown, in the wire's microseconds. */
  function Micros(h264: bool, frames: seq<Frame>): seq<int> {
    if frames == [] then []
    else
      var n := |frames| - 1;
      Micros(h264, frames[..n]) + if Shown(h264, frames[n]) then [frames[n].pts] else []
  }

  /** The device time elapsed: every step forward, and 16 ms for every step back. */
  function ElapsedMicros(times: seq<int>): int {
    if |times| <= 1 then 0
    else
      var n := |times| - 1;
      ElapsedMicros(times[..n]) + if times[n] < times[n - 1] then 16_000 else times[n] - times[n - 1]
  }

  lemma EventsPrefix(frames: seq<Frame>, paused: nat -> bool, n: nat)
    requires n <= |frames|
    ensures EventsOf(frames, paused)[..n] == EventsOf(frames[..n], paused)
  {}

  /** What the bits of a frame become. */
  lemma EventBits(h264: bool, f: Frame, paused: bool)
    ensures var e := Event(PacketReader.ToVideo(f), paused);
            && (IsConfig(h264, e) <==> h264 && f.Media? && f.config)
            && (IsFrame(h264, e) <==> Shown(h264, f))
            && (f.Media? ==> e.packet.payload == f.payload && e.packet.keyFrame == f.keyFrame
                             && e.packet.pts == f.pts * 1000)
  {}

  /** The configuration in force is the payload of the newest frame with the
      configuration bit. */
  lemma {:induction false} NewestIsWire(frames: seq<Frame>, paused: nat -> bool)
    ensures Newest(true, EventsOf(frames, paused)) == WireConfig(frames)
    decreases |frames|
  {
    if frames != [] {
      var n := |frames| - 1;
      EventsPrefix(frames, paused, n);
      EventBits(true, frames[n], paused(n));
      NewestIsWire(frames[..n], paused);
    }
  }

  /** What is emitted since is what was emitted after that frame. */
  lemma {:induction false} SinceIsWire(frames: seq<Frame>, paused: nat -> bool)
    ensures var events := EventsOf(frames, paused);
            Emitted(true, events)
            == Emitted(true, EventsOf(frames[..ConfigEnd(frames)], paused)) + SinceConfig(true, events)
    decreases |frames|
  {
    var events, k := EventsOf(frames, paused), ConfigEnd(frames);
    if frames == [] {
      assert frames[..k] == [];
    } else {
      var n := |frames| - 1;
      EventBits(true, frames[n], paused(n));
      if k == n + 1 {
        assert frames[..k] == frames;
        assert Emitted(true, events) + [] == Emitted(true, events);
      } else {
        EventsPrefix(frames, paused, n);
        SinceIsWire(frames[..n], paused);
        assert frames[..n][..k] == frames[..k];
        Regroup(Emitted(true, EventsOf(frames[..k], paused)), SinceConfig(true, events[..n]), LastOuts(true, events));
      }
    }
  }

  lemma Regroup<T>(a: seq<T>, b: seq<T>, c: seq<T>)
    ensures a + (b + c) == (a + b) + c
  {}

  function Scale(times: seq<int>): seq<int> {
    seq(|times|, i requires 0 <= i < |times| => times[i] * 1000)
  }

  lemma {:induction false} RawIsWire(h264: bool, frames: seq<Frame>, paused: nat -> bool)
    ensures RawPTS(h264, EventsOf(frames, paused)) == Scale(Micros(h264, frames))
    decreases |frames|
  {
    if frames != [] {
      var n := |frames| - 1;
      EventsPrefix(frames, paused, n);
      RawIsWire(h264, frames[..n], paused);
      EventBits(h264, frames[n], paused(n));
    }
  }

  lemma {:induction false} ElapsedScales(times: seq<int>)
    ensures Elapsed(Scale(times)) == 1000 * ElapsedMicros(times)
  {
    if |times| > 1 {
      var n := |times| - 1;
      ElapsedScales(times[..n]);
      assert Scale(times)[..n] == Scale(times[..n]);
    }
  }

  lemma WireTime(h264: bool, frames: seq<Frame>, paused: nat -> bool)
    requires frames != [] && Shown(h264, frames[|frames| - 1])
    ensures After(h264, EventsOf(frames, paused)).norm.lastNorm == 1000 * ElapsedMicros(Micros(h264, frames))
  {
    var n := |frames| - 1;
    EventBits(h264, frames[n], paused(n));
    ClockIsElapsed(h264, EventsOf(frames, paused));
    RawIsWire(h264, frames, paused);
    ElapsedScales(Micros(h264, frames));
  }

  /** What a frame puts on VideoCh, from the wire: something exactly if it is shown and
      not paused.  The last of it is the frame itself: its payload behind a start code,
      its keyframe bit, and the device time elapsed, in nanoseconds. */
  lemma WireLive(h264: bool, frames: seq<Frame>, paused: nat -> bool)
    requires frames != []
    ensures var n, outs := |frames| - 1, LastOuts(h264, EventsOf(frames, paused));
            && (outs != [] <==> Shown(h264, frames[n]) && !paused(n))
            && (outs != [] ==>
                  var o := outs[|outs| - 1];
                  && !o.flushed && o.sample.keyFrame == frames[n].keyFrame
                  && o.bare == Bare(h264, frames[n].payload)
                  && o.sample.pts == 1000 * ElapsedMicros(Micros(h264, frames)))
  {
    var n, events := |frames| - 1, EventsOf(frames, paused);
    assert events[n] == Event(PacketReader.ToVideo(frames[n]), paused(n));
    EventBits(h264, frames[n], paused(n));
    OutsWhenUnpaused(h264, events);
    if LastOuts(h264, events) != [] {
      LastLive(h264, events);
      WireTime(h264, frames, paused);
    }
  }

  /** A sample that shows frame k. */
  predicate Shows(h264: bool, f: Frame, data: seq<Byte>, keyFrame: bool) {
    Shown(h264, f) && data == Bare(h264, f.payload) && keyFrame == f.keyFrame
  }

  ghost predicate FromWire(h264: bool, frames: seq<Frame>, data: seq<Byte>, keyFrame: bool) {
    exists k :: 0 <= k < |frames| && Shows(h264, frames[k], data, keyFrame)
  }

  ghost predicate AllFromWire(h264: bool, frames: seq<Frame>, s: Session, outs: seq<Out>) {
    && (forall b :: b in s.buf ==> FromWire(h264, frames, b.data, b.keyFrame))
    && (forall o :: o in outs ==> FromWire(h264, frames, o.bare, o.sample.keyFrame))
  }

  lemma FromWireExtend(h264: bool, frames: seq<Frame>, f: Frame, data: seq<Byte>, keyFrame: bool)
    ensures FromWire(h264, frames, data, keyFrame) ==> FromWire(h264, frames + [f], data, keyFrame)
    ensures Shows(h264, f, data, keyFrame) ==> FromWire(h264, frames + [f], data, keyFrame)
  {
    if FromWire(h264, frames, data, keyFrame) {
      var k :| 0 <= k < |frames| && Shows(h264, frames[k], data, keyFrame);
      assert (frames + [f])[k] == frames[k];
    }
    assert (frames + [f])[|frames|] == f;
  }

  lemma StepFromWire(h264: bool, frames: seq<Frame>, f: Frame, paused: bool, s: Session, outs: seq<Out>)
    requires AllFromWire(h264, frames, s, outs)
    ensures var (t, more) := VideoForwarder.Step(h264, s, PacketReader.ToVideo(f), paused);
            AllFromWire(h264, frames + [f], t, outs + more)
  {
    var p := PacketReader.ToVideo(f);
    var (t, more) := VideoForwarder.Step(h264, s, p, paused);
    forall b | b in t.buf ensures FromWire(h264, frames + [f], b.data, b.keyFrame) {
      FromWireExtend(h264, frames, f, b.data, b.keyFrame);
      if b !in s.buf { BufferStep(h264, s, f, paused, b); }
    }
    forall o | o in outs + more ensures FromWire(h264, frames + [f], o.bare, o.sample.keyFrame) {
      FromWireExtend(h264, frames, f, o.bare, o.sample.keyFrame);
      if o !in outs { OutStep(h264, s, f, paused, o); }
    }
  }

  /** What is new in the buffer is the frame. */
  lemma BufferStep(h264: bool, s: Session, f: Frame, paused: bool, b: Sample)
    requires b in VideoForwarder.Step(h264, s, PacketReader.ToVideo(f), paused).0.buf && b !in s.buf
    ensures Shows(h264, f, b.data, b.keyFrame)
  {
    var p := PacketReader.ToVideo(f);
    var x := Sample(if h264 then EnsureCode(p.payload) else p.payload, NormalizeStep(s.norm, p.pts).lastNorm,
                    VideoForwarder.Duration(s, p.pts), p.keyFrame);
    BufferedFrom(s.buf, x, b);
  }

  /** What is new on VideoCh is the frame or comes from the buffer. */
  lemma OutStep(h264: bool, s: Session, f: Frame, paused: bool, o: Out)
    requires o in VideoForwarder.Step(h264, s, PacketReader.ToVideo(f), paused).1
    ensures Shows(h264, f, o.bare, o.sample.keyFrame)
         || exists b :: b in s.buf && o.bare == b.data && o.sample.keyFrame == b.keyFrame
  {
    FlushShape(s.buf, s.configNAL);
    FirstKeyIn(s.buf);
    var live := ForwardUnpaused(h264, s, PacketReader.ToVideo(f));
  }

  /** Nothing but frames is shown: the bare payload of everything put on VideoCh is that
      of a frame that is no configuration, with its keyframe bit. */
  lemma {:induction false} WireShown(h264: bool, frames: seq<Frame>, paused: nat -> bool)
    ensures var events := EventsOf(frames, paused);
            AllFromWire(h264, frames, After(h264, events), Emitted(h264, events))
    decreases |frames|
  {
    if frames != [] {
      var n, events := |frames| - 1, EventsOf(frames, paused);
      EventsPrefix(frames, paused, n);
      WireShown(h264, frames[..n], paused);
      StepFromWire(h264, frames[..n], frames[n], paused(n), After(h264, events[..n]), Emitted(h264, events[..n]));
      assert frames[..n] + [frames[n]] == frames;
    }
  }

  /** Config attachment for whatever the socket delivers: after any number of packets of
      any byte stream, under any pause pattern, what is emitted after the newest frame with
      the configuration bit is SinceConfig; its first sample and every live keyframe carry
      that frame's payload in front, and no other sample does; a decoder sees its NAL units
      and then the frame's own. */
  lemma StreamAttachment(s: seq<Byte>, paused: nat -> bool, n: nat, i: nat)
    requires n <= |PacketReader.ReadAll(s).0|
    ensures var frames := PacketReader.ReadAll(s).0[..n];
            var events, config := EventsOf(frames, paused), WireConfig(frames);
            var since := SinceConfig(true, events);
            && Emitted(true, events) == Emitted(true, EventsOf(frames[..ConfigEnd(frames)], paused)) + since
            && (config != [] && i < |since| ==>
                  var o := since[i];
                  if i == 0 || (!o.flushed && o.sample.keyFrame) then
                    config <= o.sample.data && Nals(o.sample.data) == Append(Nals(config), Nals(o.bare))
                  else o.sample.data == o.bare)
  {
    var frames := PacketReader.ReadAll(s).0[..n];
    var events := EventsOf(frames, paused);
    EventsPrefix(PacketReader.ReadAll(s).0, paused, n);
    PrefixWellFormed(s, paused, n);
    NewestIsWire(frames, paused);
    SinceIsWire(frames, paused);
    if WireConfig(frames) != [] && i < |SinceConfig(true, events)| {
      ConfigAttachment(true, events, i);
      AttachmentPreservesNals(events, i);
    }
  }

  // ---------------------------------------------------------------------
  // The profile probe
  // ---------------------------------------------------------------------

  /** Where the SPS scan of a payload starts, if there is a start code at all. */
  function ScanStart(payload: seq<Byte>): (rest: seq<Byte>)
    requires FirstCode(payload).Some?
  {
    var c := FirstCode(payload).value;
    payload[c.pos + c.length..]
  }

  /** The scan of the payload comes to an end. */
  predicate ProbeStops(payload: seq<Byte>) {
    FirstCode(payload).Some? ==> ScanStops(ScanStart(payload))
  }

  /** The scan has come to an end within so many passes. */
  predicate ProbedWithin(payload: seq<Byte>, limit: nat) {
    FirstCode(payload).Some? ==> !Passes(Scanning(ScanStart(payload)), limit).Scanning?
  }

  /** The first media packet, which is probed for its SPS when it is H.264. */
  function FirstMedia(events: seq<Event>): (k: nat)
    ensures k <= |events|
    ensures forall i :: 0 <= i < k ==> !events[i].packet.Media?
    ensures k < |events| ==> events[k].packet.Media?
  {
    if events == [] then 0
    else if events[0].packet.Media? then 0
    else 1 + FirstMedia(events[1..])
  }

  /** How many of the packets read forwardVideo gets through when the scan is given so
      many passes. */
  function HandledWithin(h264: bool, events: seq<Event>, limit: nat): nat {
    var k := FirstMedia(events);
    if h264 && k < |events| && !ProbedWithin(events[k].packet.payload, limit) then k else |events|
  }

  lemma ProbeTermination(payload: seq<Byte>)
    ensures (exists limit: nat :: ProbedWithin(payload, limit)) <==> ProbeStops(payload)
  {
    if FirstCode(payload).Some? {
      var rest := ScanStart(payload);
      ScanTermination(rest);
      if ScanStops(rest) {
        var n: nat :| !Passes(Scanning(rest), n).Scanning?;
        assert ProbedWithin(payload, n);
      } else {
        forall limit: nat ensures !ProbedWithin(payload, limit) {
          assert Passes(Scanning(rest), limit).Scanning?;
        }
      }
    } else {
      assert ProbedWithin(payload, 0);
    }
  }

  /** What a sender of frames wrote is forwarded, in order; the whole of it if and only if
      the codec is not H.264, there is no media packet, or the scan of the first one
      stops.  Otherwise forwarding never gets past that packet. */
  lemma StreamForwards(h264: bool, frames: seq<PacketReader.WireFrame>, paused: nat -> bool)
    ensures var events := Events(PacketReader.Stream(frames), paused);
            var k := FirstMedia(events);
            && |events| == |frames|
            && (forall i :: 0 <= i < |frames| ==> Carries(events[i], frames[i]) && events[i].paused == paused(i))
            && ((exists limit: nat :: HandledWithin(h264, events, limit) == |events|)
                <==> !h264 || k == |events| || ProbeStops(events[k].packet.payload))
            && (h264 && k < |events| && !ProbeStops(events[k].packet.payload) ==>
                  forall limit: nat :: HandledWithin(h264, events, limit) == k)
  {
    StreamEvents(frames, paused);
    Forwards(h264, Events(PacketReader.Stream(frames), paused));
  }

  lemma Forwards(h264: bool, events: seq<Event>)
    ensures var k := FirstMedia(events);
            && ((exists limit: nat :: HandledWithin(h264, events, limit) == |events|)
                <==> !h264 || k == |events| || ProbeStops(events[k].packet.payload))
            && (h264 && k < |events| && !ProbeStops(events[k].packet.payload) ==>
                  forall limit: nat :: HandledWithin(h264, events, limit) == k)
  {
    var k := FirstMedia(events);
    if h264 && k < |events| {
      var payload := events[k].packet.payload;
      ProbeTermination(payload);
      if ProbeStops(payload) {
        var limit: nat :| ProbedWithin(payload, limit);
        assert HandledWithin(h264, events, limit) == |events|;
      } else {
        forall limit: nat ensures HandledWithin(h264, events, limit) == k {
          assert !ProbedWithin(payload, limit);
        }
      }
    } else {
      assert HandledWithin(h264, events, 0) == |events|;
    }
  }
}
