/** Frames that arrive while forwarding is paused. */
module PauseBuffer {
  import opened Common
  import opened Bytes

  const MAX_PAUSED := 300

  datatype Sample = Sample(data: seq<Byte>, pts: int, duration: int, keyFrame: bool)

  function Buffer(buf: seq<Sample>, s: Sample): seq<Sample> {
    var b := (if s.keyFrame then [] else buf) + [s];
    if |b| > MAX_PAUSED then b[|b| - MAX_PAUSED / 2..] else b
  }

  function FirstKey(buf: seq<Sample>): Option<Sample> {
    if buf == [] then None else if buf[0].keyFrame then Some(buf[0]) else FirstKey(buf[1..])
  }

  function BufferAfter(frames: seq<Sample>): seq<Sample> {
    if frames == [] then [] else Buffer(BufferAfter(frames[..|frames| - 1]), frames[|frames| - 1])
  }

  predicate NoKey(frames: seq<Sample>) {
    forall i :: 0 <= i < |frames| ==> !frames[i].keyFrame
  }

  /** Index of the newest keyframe, -1 if there is none. */
  function LastKey(frames: seq<Sample>): (k: int)
    ensures -1 <= k < |frames|
    ensures k >= 0 ==> frames[k].keyFrame
    ensures forall i :: k < i < |frames| ==> !frames[i].keyFrame
  {
    if frames == [] then -1
    else if frames[|frames| - 1].keyFrame then |frames| - 1
    else LastKey(frames[..|frames| - 1])
  }

  /** At most 299 other frames followed the keyframe at index k. */
  predicate Recent(frames: seq<Sample>, k: int) {
    k >= 0 && |frames| - 1 - k < MAX_PAUSED
  }

  predicate KeyRecent(frames: seq<Sample>) {
    Recent(frames, LastKey(frames))
  }

  predicate IsSuffix(buf: seq<Sample>, frames: seq<Sample>) {
    |buf| <= |frames| && buf == frames[|frames| - |buf|..]
  }

  /** The buffer as a function of the frames buffered since the last flush: from
      the newest keyframe on while that is recent, otherwise a keyless tail. */
  ghost predicate RefinesFrom(buf: seq<Sample>, frames: seq<Sample>, k: int) {
    && IsSuffix(buf, frames) && |buf| <= MAX_PAUSED
    && if Recent(frames, k) then |buf| == |frames| - k else NoKey(buf)
  }

  ghost predicate Refines(buf: seq<Sample>, frames: seq<Sample>) {
    RefinesFrom(buf, frames, LastKey(frames))
  }

  lemma LastKeyAppend(frames: seq<Sample>, s: Sample)
    ensures LastKey(frames + [s]) == if s.keyFrame then |frames| else LastKey(frames)
  {
    assert (frames + [s])[..|frames|] == frames;
  }

  lemma SuffixAppend(buf: seq<Sample>, frames: seq<Sample>, s: Sample)
    requires IsSuffix(buf, frames)
    ensures IsSuffix(buf + [s], frames + [s])
  {
    var at := |frames| - |buf|;
    assert (frames + [s])[at..] == frames[at..] + [s];
  }

  lemma SuffixTail(buf: seq<Sample>, frames: seq<Sample>, n: nat)
    requires IsSuffix(buf, frames) && n <= |buf|
    ensures IsSuffix(buf[n..], frames)
  {
    var at := |frames| - |buf|;
    assert buf[n..] == frames[at..][n..] == frames[at + n..];
  }

  /** A keyframe starts the buffer afresh. */
  lemma KeyRefines(buf: seq<Sample>, frames: seq<Sample>, s: Sample)
    requires s.keyFrame
    ensures RefinesFrom(Buffer(buf, s), frames + [s], |frames|)
  {
    assert Buffer(buf, s) == [s] == (frames + [s])[|frames|..];
  }

  /** Another frame joins a buffer that has room. */
  lemma PlainRefines(buf: seq<Sample>, frames: seq<Sample>, s: Sample, k: int)
    requires RefinesFrom(buf, frames, k) && !s.keyFrame && |buf| < MAX_PAUSED
    ensures RefinesFrom(Buffer(buf, s), frames + [s], k)
  {
    SuffixAppend(buf, frames, s);
    assert Buffer(buf, s) == buf + [s];
  }

  /** A full buffer keeps its newest half, and no keyframe in it. */
  lemma TrimRefines(buf: seq<Sample>, frames: seq<Sample>, s: Sample, k: int)
    requires RefinesFrom(buf, frames, k) && !s.keyFrame && |buf| == MAX_PAUSED
    requires forall i :: 0 <= i < |frames| && i > k ==> !frames[i].keyFrame
    ensures RefinesFrom(Buffer(buf, s), frames + [s], k)
  {
    var cut := |buf| + 1 - MAX_PAUSED / 2;
    var b := (buf + [s])[cut..];
    assert Buffer(buf, s) == b;
    SuffixAppend(buf, frames, s);
    SuffixTail(buf + [s], frames + [s], cut);
    TrimmedKeyless(buf, frames, k, cut);
    assert b == buf[cut..] + [s];
  }

  lemma TrimmedKeyless(buf: seq<Sample>, frames: seq<Sample>, k: int, cut: nat)
    requires RefinesFrom(buf, frames, k) && 0 < cut <= |buf|
    requires forall i :: 0 <= i < |frames| && i > k ==> !frames[i].keyFrame
    ensures NoKey(buf[cut..])
  {
    var at := |frames| - |buf|;
    forall i | 0 <= i < |buf[cut..]| ensures !buf[cut..][i].keyFrame {
      assert buf[cut..][i] == buf[cut + i] == frames[at + cut + i];
    }
  }

  lemma BufferRefines(buf: seq<Sample>, frames: seq<Sample>, s: Sample)
    requires Refines(buf, frames)
    ensures Refines(Buffer(buf, s), frames + [s])
  {
    LastKeyAppend(frames, s);
    if s.keyFrame { KeyRefines(buf, frames, s); }
    else if |buf| < MAX_PAUSED { PlainRefines(buf, frames, s, LastKey(frames)); }
    else { TrimRefines(buf, frames, s, LastKey(frames)); }
  }

  lemma {:induction false} BufferAfterRefines(frames: seq<Sample>)
    ensures Refines(BufferAfter(frames), frames)
  {
    if frames != [] {
      var n := |frames| - 1;
      BufferAfterRefines(frames[..n]);
      BufferRefines(BufferAfter(frames[..n]), frames[..n], frames[n]);
      assert frames[..n] + [frames[n]] == frames;
    }
  }

  lemma {:induction false} FirstKeyNone(buf: seq<Sample>)
    requires NoKey(buf)
    ensures FirstKey(buf) == None
  {
    if buf != [] { FirstKeyNone(buf[1..]); }
  }

  /** The pause buffer refines the history of paused frames: it is bounded, only its
      first entry can be a keyframe, and a flush returns the newest keyframe exactly
      when at most 299 frames followed it, otherwise nothing. */
  lemma FlushReturnsRecentKey(frames: seq<Sample>)
    ensures var buf := BufferAfter(frames);
            && |buf| <= MAX_PAUSED
            && (forall i :: 0 < i < |buf| ==> !buf[i].keyFrame)
            && FirstKey(buf) == if KeyRecent(frames) then Some(frames[LastKey(frames)]) else None
  {
    BufferAfterRefines(frames);
    var buf := BufferAfter(frames);
    if !KeyRecent(frames) { FirstKeyNone(buf); }
  }
}
