/** forwardVideo: from scrcpy packets to samples for the media pump. */
module VideoForwarder {
  import opened Common
  import opened Bytes
  import opened AnnexB
  import opened VideoTiming
  import opened PauseBuffer

  const DEFAULT_DURATION := 33 * MILLISECOND
  const MAX_VIDEO_DURATION := 4700 * MILLISECOND

  /** A packet as read off the video socket; a media payload is never empty. */
  datatype Packet =
    | SessionMeta
    | Media(config: bool, keyFrame: bool, pts: int, payload: seq<Byte>)

  predicate WellFormed(p: Packet) {
    p.Media? ==> p.payload != []
  }

  /** A sample put on VideoCh.  `bare` is its payload before any parameter sets
      were put in front; `flushed` tells a buffered frame from a live one. */
  datatype Out = Out(sample: Sample, flushed: bool, bare: seq<Byte>)

  datatype State = State(
    configNAL: seq<Byte>,        // pending parameter sets, empty when none
    lastConfigNAL: seq<Byte>,
    lastRawPTS: int,
    first: bool,
    norm: Norm,
    buf: seq<Sample>)

  const Start := State([], [], 0, true, Unstarted, [])

  function Flush(buf: seq<Sample>, configNAL: seq<Byte>): seq<Out> {
    match FirstKey(buf)
    case None => []
    case Some(s) =>
      [Out(if configNAL == [] then s else s.(data := MergeConfigNAL(configNAL, s.data)), true, s.data)]
  }

  function Duration(s: State, pts: int): int {
    var diff := pts - s.lastRawPTS;
    if !s.first && 0 < diff < MAX_VIDEO_DURATION then diff else DEFAULT_DURATION
  }

  /** One media frame, with the pause flag as read for it. */
  function Forward(h264: bool, s: State, p: Packet, paused: bool): (State, seq<Out>)
    requires p.Media?
  {
    var duration := Duration(s, p.pts);
    var norm := NormalizeStep(s.norm, p.pts);
    var bare := if h264 then EnsureCode(p.payload) else p.payload;
    var sample := Sample(bare, norm.lastNorm, duration, p.keyFrame);
    var t := s.(lastRawPTS := p.pts, first := false, norm := norm);
    if paused then (t.(buf := Buffer(s.buf, sample)), [])
    else
      var flushed := Flush(s.buf, s.configNAL);
      var pending := if flushed != [] then [] else s.configNAL;
      var config := if pending == [] && p.keyFrame then s.lastConfigNAL else pending;
      var live := if config == [] then sample else sample.(data := MergeConfigNAL(config, bare));
      (t.(buf := [], configNAL := []), flushed + [Out(live, false, bare)])
  }

  function Step(h264: bool, s: State, p: Packet, paused: bool): (State, seq<Out>) {
    if p.SessionMeta? then (s, [])
    else if p.config && h264 then (s.(configNAL := p.payload, lastConfigNAL := p.payload), [])
    else Forward(h264, s, p, paused)
  }

  class Session {
    const h264: bool
    const videoNorm: PtsNormalizer
    var configNAL: seq<Byte>
    var lastConfigNAL: seq<Byte>
    var lastRawPTS: int
    var first: bool
    var pausedVideoBuf: seq<Sample>
    var videoCh: seq<Out>

    ghost function Abs(): State
      reads this, videoNorm
    {
      State(configNAL, lastConfigNAL, lastRawPTS, first, videoNorm.Abs(), pausedVideoBuf)
    }

    constructor (h264: bool)
      ensures this.h264 == h264 && Abs() == Start && videoCh == [] && fresh(videoNorm)
    {
      this.h264 := h264;
      videoNorm := new PtsNormalizer();
      configNAL, lastConfigNAL, lastRawPTS, first, pausedVideoBuf, videoCh := [], [], 0, true, [], [];
    }

    method BufferPausedVideo(sample: Sample)
      modifies this`pausedVideoBuf
      ensures pausedVideoBuf == Buffer(old(pausedVideoBuf), sample)
    {
      if sample.keyFrame { pausedVideoBuf := []; }
      pausedVideoBuf := pausedVideoBuf + [sample];
      if |pausedVideoBuf| > MAX_PAUSED {
        var cut := |pausedVideoBuf| - MAX_PAUSED / 2;
        pausedVideoBuf := pausedVideoBuf[cut..];
      }
    }

    method FlushPausedVideo(config: seq<Byte>) returns (toSend: seq<Out>)
      modifies this`pausedVideoBuf
      ensures toSend == Flush(old(pausedVideoBuf), config) && pausedVideoBuf == []
    {
      if |pausedVideoBuf| == 0 { return []; }
      var start := 0;
      assert pausedVideoBuf[0..] == pausedVideoBuf;
      while start < |pausedVideoBuf| && !pausedVideoBuf[start].keyFrame
        invariant 0 <= start <= |pausedVideoBuf|
        invariant FirstKey(pausedVideoBuf) == FirstKey(pausedVideoBuf[start..])
      {
        assert pausedVideoBuf[start..][1..] == pausedVideoBuf[start + 1..];
        start := start + 1;
      }
      if start == |pausedVideoBuf| {
        pausedVideoBuf := [];
        return [];
      }
      var sample := pausedVideoBuf[start];
      var bare := sample.data;
      if |config| > 0 { sample := sample.(data := MergeConfigNAL(config, sample.data)); }
      pausedVideoBuf := [];
      return [Out(sample, true, bare)];
    }

    /** The unpaused end of a round: put parameter sets in front when they are due,
        then send. */
    method SendLive(sample: Sample)
      modifies this`configNAL, this`videoCh
      ensures configNAL == []
      ensures var pending := old(configNAL);
              var config := if pending == [] && sample.keyFrame then lastConfigNAL else pending;
              videoCh == old(videoCh)
                         + [Out(if config == [] then sample else sample.(data := MergeConfigNAL(config, sample.data)),
                                false, sample.data)]
    {
      var payload := sample.data;
      var effConfig := configNAL;
      if |effConfig| == 0 && sample.keyFrame && |lastConfigNAL| > 0 { effConfig := lastConfigNAL; }
      if |effConfig| > 0 {
        payload := MergeConfigNAL(effConfig, payload);
        configNAL := [];
      }
      videoCh := videoCh + [Out(sample.(data := payload), false, sample.data)];
    }

    method FrameDuration(pts: int) returns (duration: int)
      ensures duration == Duration(Abs(), pts)
    {
      duration := DEFAULT_DURATION;
      if !first {
        var diff := pts - lastRawPTS;
        if diff > 0 && diff < MAX_VIDEO_DURATION { duration := diff; }
      }
    }

    /** A media frame: time it, then buffer it or flush and send. */
    method ForwardFrame(p: Packet, paused: bool)
      requires p.Media?
      modifies this, videoNorm
      ensures Abs() == Forward(h264, old(Abs()), p, paused).0
      ensures videoCh == old(videoCh) + Forward(h264, old(Abs()), p, paused).1
    {
      var duration := FrameDuration(p.pts);
      lastRawPTS := p.pts;
      first := false;
      var pts := videoNorm.Normalize(p.pts);
      var payload := if h264 then EnsureCode(p.payload) else p.payload;
      if !paused {
        var toSend := FlushPausedVideo(configNAL);
        if |toSend| > 0 {
          configNAL := [];
          videoCh := videoCh + toSend;
        }
      }
      if paused {
        BufferPausedVideo(Sample(payload, pts, duration, p.keyFrame));
        return;
      }
      SendLive(Sample(payload, pts, duration, p.keyFrame));
    }

    /** One round of the forwardVideo loop. */
    method ForwardPacket(p: Packet, paused: bool)
      modifies this, videoNorm
      ensures Abs() == Step(h264, old(Abs()), p, paused).0
      ensures videoCh == old(videoCh) + Step(h264, old(Abs()), p, paused).1
    {
      if p.SessionMeta? { return; }
      if p.config && h264 {
        configNAL := p.payload;
        lastConfigNAL := configNAL;
        return;
      }
      ForwardFrame(p, paused);
    }
  }
}
