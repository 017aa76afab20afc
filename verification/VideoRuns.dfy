/** What holds of every run of the video path, whatever the pause pattern. */
module VideoRuns {
  import opened Common
  import opened Bytes
  import opened AnnexB
  import opened VideoTiming
  import opened PauseBuffer
  import opened VideoForwarder

  /** A packet and the pause flag that forwardVideo reads for it. */
  datatype Event = Event(packet: Packet, paused: bool)

  ghost predicate AllWellFormed(events: seq<Event>) {
    forall i :: 0 <= i < |events| ==> WellFormed(events[i].packet)
  }

  predicate IsConfig(h264: bool, e: Event) {
    e.packet.Media? && e.packet.config && h264
  }

  predicate IsFrame(h264: bool, e: Event) {
    e.packet.Media? && !IsConfig(h264, e)
  }

  function After(h264: bool, events: seq<Event>): State {
    if events == [] then Start
    else
      var e := events[|events| - 1];
      Step(h264, After(h264, events[..|events| - 1]), e.packet, e.paused).0
  }

  /** What the last event of a run puts on VideoCh. */
  function LastOuts(h264: bool, events: seq<Event>): seq<Out>
    requires events != []
  {
    var e := events[|events| - 1];
    Step(h264, After(h264, events[..|events| - 1]), e.packet, e.paused).1
  }

  /** Everything put on VideoCh. */
  function Emitted(h264: bool, events: seq<Event>): seq<Out> {
    if events == [] then [] else Emitted(h264, events[..|events| - 1]) + LastOuts(h264, events)
  }

  // ---------------------------------------------------------------------
  // Parameter sets
  // ---------------------------------------------------------------------

  /** The newest configuration packet, empty if there was none. */
  function Newest(h264: bool, events: seq<Event>): seq<Byte> {
    if events == [] then []
    else
      var e := events[|events| - 1];
      if IsConfig(h264, e) then e.packet.payload else Newest(h264, events[..|events| - 1])
  }

  /** Everything put on VideoCh after the newest configuration packet. */
  function SinceConfig(h264: bool, events: seq<Event>): seq<Out> {
    if events == [] || IsConfig(h264, events[|events| - 1]) then []
    else SinceConfig(h264, events[..|events| - 1]) + LastOuts(h264, events)
  }

  /** The i-th sample after a configuration packet is due to carry it: the first
      one whatever it is, and every live keyframe. */
  predicate CarriesConfig(o: Out, i: nat) {
    i == 0 || (!o.flushed && o.sample.keyFrame)
  }

  ghost predicate Attached(config: seq<Byte>, outs: seq<Out>) {
    forall i :: 0 <= i < |outs| ==>
      outs[i].sample.data ==
        if config != [] && CarriesConfig(outs[i], i) then MergeConfigNAL(config, outs[i].bare) else outs[i].bare
  }

  lemma FlushShape(buf: seq<Sample>, config: seq<Byte>)
    ensures |Flush(buf, config)| <= 1
    ensures Flush(buf, config) != [] ==>
              var o := Flush(buf, config)[0];
              && o.flushed && FirstKey(buf).Some? && o.bare == FirstKey(buf).value.data
              && o.sample.pts == FirstKey(buf).value.pts
              && o.sample.data == if config == [] then o.bare else MergeConfigNAL(config, o.bare)
  {}

  lemma ForwardAttached(h264: bool, s: State, p: Packet, paused: bool, since: seq<Out>)
    requires p.Media? && Attached(s.lastConfigNAL, since)
    requires s.configNAL == if since == [] then s.lastConfigNAL else []
    ensures var (t, outs) := Forward(h264, s, p, paused);
            && Attached(s.lastConfigNAL, since + outs)
            && t.lastConfigNAL == s.lastConfigNAL
            && t.configNAL == if since + outs == [] then s.lastConfigNAL else []
  {
    FlushShape(s.buf, s.configNAL);
  }

  lemma {:induction false} RunAttached(h264: bool, events: seq<Event>)
    requires AllWellFormed(events)
    ensures var s := After(h264, events);
            && s.lastConfigNAL == Newest(h264, events)
            && s.configNAL == (if SinceConfig(h264, events) == [] then Newest(h264, events) else [])
            && Attached(Newest(h264, events), SinceConfig(h264, events))
  {
    if events != [] {
      var n := |events| - 1;
      var e := events[n];
      RunAttached(h264, events[..n]);
      if IsFrame(h264, e) {
        ForwardAttached(h264, After(h264, events[..n]), e.packet, e.paused, SinceConfig(h264, events[..n]));
      } else if !IsConfig(h264, e) {
        assert SinceConfig(h264, events) == SinceConfig(h264, events[..n]);
      }
    }
  }

  /** Config attachment: of the samples emitted after the newest configuration
      packet, the first and every live keyframe start with that configuration, and
      no other sample has anything put in front of it.  In particular a flushed IDR
      carries parameter sets exactly when they were still pending. */
  lemma ConfigAttachment(h264: bool, events: seq<Event>, i: nat)
    requires AllWellFormed(events) && i < |SinceConfig(h264, events)| && Newest(h264, events) != []
    ensures var o := SinceConfig(h264, events)[i];
            && (CarriesConfig(o, i) ==> Newest(h264, events) <= o.sample.data
                                        && o.sample.data == MergeConfigNAL(Newest(h264, events), o.bare))
            && (!CarriesConfig(o, i) ==> o.sample.data == o.bare)
  {
    RunAttached(h264, events);
  }

  // ---------------------------------------------------------------------
  // NAL units
  // ---------------------------------------------------------------------

  ghost predicate Coded(s: State) {
    forall i :: 0 <= i < |s.buf| ==> StartsWithCode(s.buf[i].data)
  }

  lemma {:induction false} FirstKeyIn(buf: seq<Sample>)
    ensures FirstKey(buf).Some? ==> FirstKey(buf).value in buf
  {
    if buf != [] && !buf[0].keyFrame { FirstKeyIn(buf[1..]); }
  }

  lemma ForwardCoded(s: State, p: Packet, paused: bool)
    requires p.Media? && Coded(s)
    ensures Coded(Forward(true, s, p, paused).0)
    ensures forall o :: o in Forward(true, s, p, paused).1 ==> StartsWithCode(o.bare)
  {
    if paused {
      BufferCoded(s.buf, Sample(EnsureCode(p.payload), NormalizeStep(s.norm, p.pts).lastNorm,
                                VideoForwarder.Duration(s, p.pts), p.keyFrame));
    } else {
      FirstKeyIn(s.buf);
      FlushShape(s.buf, s.configNAL);
    }
  }

  lemma BufferCoded(buf: seq<Sample>, x: Sample)
    requires StartsWithCode(x.data) && forall i :: 0 <= i < |buf| ==> StartsWithCode(buf[i].data)
    ensures forall i :: 0 <= i < |Buffer(buf, x)| ==> StartsWithCode(Buffer(buf, x)[i].data)
  {
    forall i | 0 <= i < |Buffer(buf, x)| ensures StartsWithCode(Buffer(buf, x)[i].data) {
      BufferedFrom(buf, x, Buffer(buf, x)[i]);
    }
  }

  lemma BufferedFrom(buf: seq<Sample>, x: Sample, b: Sample)
    requires b in Buffer(buf, x)
    ensures b == x || b in buf
  {
    var all := (if x.keyFrame then [] else buf) + [x];
    assert b in all;
  }

  lemma {:induction false} RunCoded(events: seq<Event>)
    ensures Coded(After(true, events))
    ensures forall o :: o in SinceConfig(true, events) ==> StartsWithCode(o.bare)
  {
    if events != [] {
      var n := |events| - 1;
      RunCoded(events[..n]);
      if IsFrame(true, events[n]) {
        ForwardCoded(After(true, events[..n]), events[n].packet, events[n].paused);
      }
    }
  }

  /** Decoders see the configuration's NAL units, then the frame's own, and nothing else. */
  lemma AttachmentPreservesNals(events: seq<Event>, i: nat)
    requires AllWellFormed(events) && i < |SinceConfig(true, events)| && Newest(true, events) != []
    ensures var o := SinceConfig(true, events)[i];
            Nals(o.sample.data)
            == if CarriesConfig(o, i) then Append(Nals(Newest(true, events)), Nals(o.bare)) else Nals(o.bare)
  {
    RunAttached(true, events);
    RunCoded(events);
    MergePreservesNals(Newest(true, events), SinceConfig(true, events)[i].bare);
  }

  // ---------------------------------------------------------------------
  // Timestamps
  // ---------------------------------------------------------------------

  /** The raw timestamps of the frames seen so far. */
  function RawPTS(h264: bool, events: seq<Event>): seq<int> {
    if events == [] then []
    else
      var e := events[|events| - 1];
      RawPTS(h264, events[..|events| - 1]) + if IsFrame(h264, e) then [e.packet.pts] else []
  }

  ghost predicate SortedOuts(outs: seq<Out>) {
    forall i, j :: 0 <= i < j < |outs| ==> outs[i].sample.pts <= outs[j].sample.pts
  }

  /** Emitted, then buffered, then the clock: all in order. */
  ghost predicate InOrder(s: State, outs: seq<Out>) {
    && NormOk(s.norm) && (!s.norm.started ==> s.buf == [] && outs == [])
    && SortedOuts(outs)
    && (forall o, b :: o in outs && b in s.buf ==> o.sample.pts <= b.pts)
    && (forall b :: b in s.buf ==> b.pts <= s.norm.lastNorm)
    && (forall o :: o in outs ==> o.sample.pts <= s.norm.lastNorm)
  }

  lemma AppendSorted(outs: seq<Out>, o: Out)
    requires SortedOuts(outs) && forall p :: p in outs ==> p.sample.pts <= o.sample.pts
    ensures SortedOuts(outs + [o])
  {}

  lemma ForwardPaused(h264: bool, s: State, p: Packet, outs: seq<Out>)
    requires p.Media? && InOrder(s, outs)
    ensures InOrder(Forward(h264, s, p, true).0, outs)
  {
    if s.norm.started { ClampNeverFires(s.norm, p.pts); }
  }

  /** What an unpaused frame puts on VideoCh: the flushed keyframe if there is one,
      then itself. */
  lemma ForwardUnpaused(h264: bool, s: State, p: Packet) returns (live: Out)
    requires p.Media?
    ensures var (t, outs) := Forward(h264, s, p, false);
            && outs == Flush(s.buf, s.configNAL) + [live]
            && !live.flushed && live.sample.keyFrame == p.keyFrame
            && live.bare == (if h264 then EnsureCode(p.payload) else p.payload)
            && live.sample.pts == t.norm.lastNorm && live.sample.duration == Duration(s, p.pts)
  {
    var outs := Forward(h264, s, p, false).1;
    live := outs[|outs| - 1];
  }

  lemma ForwardInOrder(h264: bool, s: State, p: Packet, outs: seq<Out>)
    requires p.Media? && InOrder(s, outs)
    ensures InOrder(Forward(h264, s, p, false).0, outs + Forward(h264, s, p, false).1)
  {
    var t := Forward(h264, s, p, false).0;
    if s.norm.started { ClampNeverFires(s.norm, p.pts); }
    var live := ForwardUnpaused(h264, s, p);
    FlushShape(s.buf, s.configNAL);
    FirstKeyIn(s.buf);
    var flushed := Flush(s.buf, s.configNAL);
    if flushed == [] {
      AppendSorted(outs, live);
      assert outs + ([] + [live]) == outs + [live];
    } else {
      var f := flushed[0];
      AppendSorted(outs, f);
      AppendSorted(outs + [f], live);
      assert outs + (flushed + [live]) == outs + [f] + [live];
    }
  }

  lemma StepInOrder(h264: bool, s: State, e: Event, outs: seq<Out>)
    requires InOrder(s, outs)
    ensures var (t, more) := Step(h264, s, e.packet, e.paused); InOrder(t, outs + more)
  {
    if IsFrame(h264, e) && !e.paused {
      ForwardInOrder(h264, s, e.packet, outs);
    } else {
      assert outs + [] == outs;
      if IsFrame(h264, e) { ForwardPaused(h264, s, e.packet, outs); }
    }
  }

  lemma {:induction false} RunInOrder(h264: bool, events: seq<Event>)
    ensures InOrder(After(h264, events), Emitted(h264, events))
  {
    if events != [] {
      var n := |events| - 1;
      RunInOrder(h264, events[..n]);
      StepInOrder(h264, After(h264, events[..n]), events[n], Emitted(h264, events[..n]));
    }
  }

  lemma StepNorm(h264: bool, s: State, e: Event)
    ensures Step(h264, s, e.packet, e.paused).0.norm
         == if IsFrame(h264, e) then NormalizeStep(s.norm, e.packet.pts) else s.norm
  {}

  lemma {:induction false} RunNorm(h264: bool, events: seq<Event>)
    ensures After(h264, events).norm == NormAfter(RawPTS(h264, events))
  {
    if events != [] {
      var n := |events| - 1;
      var raws := RawPTS(h264, events);
      RunNorm(h264, events[..n]);
      StepNorm(h264, After(h264, events[..n]), events[n]);
      if IsFrame(h264, events[n]) {
        assert raws[..|raws| - 1] == RawPTS(h264, events[..n]);
      } else {
        assert raws == RawPTS(h264, events[..n]);
      }
    }
  }

  /** The sample that an unpaused frame sends last is the frame itself. */
  lemma LastLive(h264: bool, events: seq<Event>)
    requires events != [] && LastOuts(h264, events) != []
    ensures var e, outs := events[|events| - 1], LastOuts(h264, events);
            var o, before := outs[|outs| - 1], After(h264, events[..|events| - 1]);
            && IsFrame(h264, e) && !o.flushed && o.sample.keyFrame == e.packet.keyFrame
            && o.bare == (if h264 then EnsureCode(e.packet.payload) else e.packet.payload)
            && o.sample.pts == After(h264, events).norm.lastNorm
            && o.sample.duration == Duration(before, e.packet.pts)
  {
    var n := |events| - 1;
    OutsWhenUnpaused(h264, events);
    var live := ForwardUnpaused(h264, After(h264, events[..n]), events[n].packet);
    assert LastOuts(h264, events)[|LastOuts(h264, events)| - 1] == live;
  }

  /** After a frame the clock stands at the device time elapsed since the first one. */
  lemma ClockIsElapsed(h264: bool, events: seq<Event>)
    requires events != [] && IsFrame(h264, events[|events| - 1])
    ensures After(h264, events).norm.lastNorm == Elapsed(RawPTS(h264, events))
  {
    var raws := RawPTS(h264, events);
    assert raws[|raws| - 1] == events[|events| - 1].packet.pts;
    RunNorm(h264, events);
    NormalizedIsElapsed(raws);
  }

  /** Under any encoder rollbacks and any pause pattern, timestamps on VideoCh never
      go back, and a live sample is stamped with exactly the device time elapsed
      since the first frame. */
  lemma EmittedInOrder(h264: bool, events: seq<Event>)
    ensures SortedOuts(Emitted(h264, events))
    ensures events != [] && LastOuts(h264, events) != [] ==>
              var outs := LastOuts(h264, events);
              && !outs[|outs| - 1].flushed
              && outs[|outs| - 1].sample.pts == Elapsed(RawPTS(h264, events))
  {
    RunInOrder(h264, events);
    if events != [] && LastOuts(h264, events) != [] {
      LastLive(h264, events);
      ClockIsElapsed(h264, events);
    }
  }

  lemma {:induction false} RunLastRaw(h264: bool, events: seq<Event>)
    ensures var s, raws := After(h264, events), RawPTS(h264, events);
            (s.first <==> raws == []) && (raws != [] ==> s.lastRawPTS == raws[|raws| - 1])
  {
    if events != [] {
      var n := |events| - 1;
      RunLastRaw(h264, events[..n]);
      if !IsFrame(h264, events[n]) { assert RawPTS(h264, events) == RawPTS(h264, events[..n]); }
    }
  }

  /** Exactly the unpaused frames put something on VideoCh. */
  lemma OutsWhenUnpaused(h264: bool, events: seq<Event>)
    requires events != []
    ensures LastOuts(h264, events) != []
       <==> IsFrame(h264, events[|events| - 1]) && !events[|events| - 1].paused
  {}

  function Gap(raws: seq<int>): int {
    if |raws| < 2 then 0 else raws[|raws| - 1] - raws[|raws| - 2]
  }

  /** The raw gap is what the duration of the last frame is taken from. */
  lemma LastDuration(h264: bool, events: seq<Event>)
    requires events != [] && IsFrame(h264, events[|events| - 1])
    ensures var gap := Gap(RawPTS(h264, events));
            Duration(After(h264, events[..|events| - 1]), events[|events| - 1].packet.pts)
            == if 0 < gap < MAX_VIDEO_DURATION then gap else DEFAULT_DURATION
  {
    var n := |events| - 1;
    RunLastRaw(h264, events[..n]);
    assert RawPTS(h264, events) == RawPTS(h264, events[..n]) + [events[n].packet.pts];
  }

  /** An unpaused frame is sent live with its own payload, and with the raw gap to the
      frame before as duration when that is sane, else 33 ms. */
  lemma LiveSample(h264: bool, events: seq<Event>)
    requires events != [] && LastOuts(h264, events) != []
    ensures var e, outs := events[|events| - 1], LastOuts(h264, events);
            var o, gap := outs[|outs| - 1], Gap(RawPTS(h264, events));
            && e.packet.Media? && !o.flushed && o.sample.keyFrame == e.packet.keyFrame
            && o.bare == (if h264 then EnsureCode(e.packet.payload) else e.packet.payload)
            && o.sample.duration == if 0 < gap < 4_700_000_000 then gap else 33_000_000
  {
    LastLive(h264, events);
    LastDuration(h264, events);
  }

  // ---------------------------------------------------------------------
  // Pausing
  // ---------------------------------------------------------------------

  /** The frames that arrived paused since the last unpaused frame. */
  function PausedFrames(h264: bool, events: seq<Event>): seq<Sample> {
    if events == [] then []
    else
      var n := |events| - 1;
      var e := events[n];
      if !IsFrame(h264, e) then PausedFrames(h264, events[..n])
      else if !e.paused then []
      else
        var s := After(h264, events[..n]);
        var data := if h264 then EnsureCode(e.packet.payload) else e.packet.payload;
        PausedFrames(h264, events[..n])
        + [Sample(data, NormalizeStep(s.norm, e.packet.pts).lastNorm, Duration(s, e.packet.pts), e.packet.keyFrame)]
  }

  lemma {:induction false} BufferIsHistory(h264: bool, events: seq<Event>)
    ensures After(h264, events).buf == BufferAfter(PausedFrames(h264, events))
  {
    if events != [] {
      var n := |events| - 1;
      BufferIsHistory(h264, events[..n]);
      if IsFrame(h264, events[n]) && events[n].paused {
        var frames := PausedFrames(h264, events);
        assert frames[..|frames| - 1] == PausedFrames(h264, events[..n]);
      }
    }
  }

  /** Unpausing: the first unpaused frame is preceded by the newest paused keyframe
      exactly when at most 299 paused frames followed it. */
  lemma UnpauseFlush(h264: bool, events: seq<Event>)
    requires events != [] && IsFrame(h264, events[|events| - 1]) && !events[|events| - 1].paused
    ensures var frames := PausedFrames(h264, events[..|events| - 1]);
            var outs := LastOuts(h264, events);
            if KeyRecent(frames) then
              |outs| == 2 && outs[0].flushed && !outs[1].flushed
              && outs[0].bare == frames[LastKey(frames)].data
              && outs[0].sample.pts == frames[LastKey(frames)].pts
            else |outs| == 1 && !outs[0].flushed
  {
    var n := |events| - 1;
    BufferIsHistory(h264, events[..n]);
    FlushReturnsRecentKey(PausedFrames(h264, events[..n]));
    var s := After(h264, events[..n]);
    FlushShape(s.buf, s.configNAL);
  }
}
