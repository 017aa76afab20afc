/** The timestamps of the video path.  Times are nanoseconds. */
module VideoTiming {
  import opened Common

  const ROLLBACK_STEP := 16 * MILLISECOND

  datatype Norm = Norm(started: bool, base: int, lastNorm: int, lastRaw: int)

  const Unstarted := Norm(false, 0, 0, 0)

  /** ptsNormalizer.normalize, clamp included; the output is the new lastNorm. */
  function NormalizeStep(n: Norm, raw: int): Norm {
    if !n.started then Norm(true, raw, 0, raw)
    else
      var base := if raw < n.lastRaw then raw - n.lastNorm - ROLLBACK_STEP else n.base;
      Norm(true, base, Max(raw - base, n.lastNorm), raw)
  }

  class PtsNormalizer {
    var started: bool
    var base: int
    var lastNorm: int
    var lastRaw: int

    ghost function Abs(): Norm
      reads this
    {
      Norm(started, base, lastNorm, lastRaw)
    }

    constructor ()
      ensures Abs() == Unstarted
    {
      started, base, lastNorm, lastRaw := false, 0, 0, 0;
    }

    method Normalize(raw: int) returns (norm: int)
      modifies this
      ensures Abs() == NormalizeStep(old(Abs()), raw) && norm == Abs().lastNorm
    {
      if !started {
        started := true;
        base := raw;
        lastRaw := raw;
        lastNorm := 0;
        return 0;
      }
      if raw < lastRaw { base := raw - lastNorm - ROLLBACK_STEP; }
      lastRaw := raw;
      norm := raw - base;
      if norm < lastNorm { norm := lastNorm; }
      lastNorm := norm;
    }
  }

  function NormAfter(raws: seq<int>): Norm {
    if raws == [] then Unstarted else NormalizeStep(NormAfter(raws[..|raws| - 1]), raws[|raws| - 1])
  }

  /** The forward raw deltas, and 16 ms for every step back. */
  function Elapsed(raws: seq<int>): int {
    if |raws| <= 1 then 0
    else
      var n := |raws| - 1;
      Elapsed(raws[..n]) + if raws[n] < raws[n - 1] then ROLLBACK_STEP else raws[n] - raws[n - 1]
  }

  ghost predicate NormOk(n: Norm) {
    n.started ==> n.lastNorm == n.lastRaw - n.base
  }

  /** The final clamp of the normaliser never changes its output. */
  lemma ClampNeverFires(n: Norm, raw: int)
    requires NormOk(n) && n.started
    ensures var m := NormalizeStep(n, raw);
            m.lastNorm == raw - m.base && m.lastNorm >= n.lastNorm && NormOk(m)
  {}

  /** Over every stream of raw timestamps the output is exactly the elapsed device
      time, whatever the encoder rolls back, so it never decreases. */
  lemma {:induction false} NormalizedIsElapsed(raws: seq<int>)
    requires raws != []
    ensures var n := NormAfter(raws);
            && n.started && n.lastRaw == raws[|raws| - 1] && NormOk(n)
            && n.lastNorm == Elapsed(raws)
            && (|raws| > 1 ==> Elapsed(raws) >= Elapsed(raws[..|raws| - 1]))
  {
    if |raws| > 1 {
      NormalizedIsElapsed(raws[..|raws| - 1]);
    }
  }
}
