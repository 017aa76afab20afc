/** What the recovery machine requests, told from the events alone.

  The functions below look back over the events and over what was requested so far; no
  counter, level or timestamp of the machine appears in them.
*/
module PliHistory {
  import opened Common
  import opened PliRecovery

  /** The newest request was an encoder reset. */
  predicate InReset(log: seq<Action>) {
    log != [] && (log[|log| - 1].ResetByPLI? || log[|log| - 1].ResetByFIR?)
  }

  function LastResetAt(log: seq<Action>): Option<int> {
    if log == [] then None
    else
      var n := |log| - 1;
      if log[n].ResetByPLI? || log[n].ResetByFIR? then Some(log[n].at) else LastResetAt(log[..n])
  }

  function LastFIRAt(log: seq<Action>): Option<int> {
    if log == [] then None
    else
      var n := |log| - 1;
      if log[n].ResetByFIR? then Some(log[n].at) else LastFIRAt(log[..n])
  }

  /** The most decoded frames reported. */
  function Frames(events: seq<Event>): nat {
    if events == [] then 0
    else
      var n := |events| - 1;
      if events[n].Progress? && events[n].decoded > Frames(events[..n]) then events[n].decoded else Frames(events[..n])
  }

  /** Everything requested over the events. */
  function History(start: int, events: seq<Event>): seq<Action>
    decreases |events|, 0
  {
    if events == [] then []
    else
      var n := |events| - 1;
      History(start, events[..n]) + Reaction(start, events[..n], events[n])
  }

  /** When a PLI was heard last; the start counts as one. */
  function LastHeard(start: int, events: seq<Event>): int
    decreases |events|, 0
  {
    if events == [] then start
    else
      var n := |events| - 1;
      if events[n].PLI? && Hears(start, events[..n], events[n].at) then events[n].at else LastHeard(start, events[..n])
  }

  /** A PLI is heard 1 s after the last one that was, and 10 s after it when the newest
      request was a reset. */
  predicate Hears(start: int, events: seq<Event>, now: int)
    decreases |events|, 1
  {
    now - LastHeard(start, events) >= (if InReset(History(start, events)) then 10 * SECOND else 1 * SECOND)
  }

  /** A PLI that is heard opens an episode when nothing was requested before, or when
      frames were decoded since the current episode opened. */
  predicate Opens(start: int, events: seq<Event>, now: int)
    decreases |events|, 2
  {
    && Hears(start, events, now)
    && (History(start, events) == [] || Frames(events) > FramesAtOpening(start, events))
  }

  function FramesAtOpening(start: int, events: seq<Event>): nat
    decreases |events|, 0
  {
    if events == [] then 0
    else
      var n := |events| - 1;
      if events[n].PLI? && Opens(start, events[..n], events[n].at) then Frames(events[..n])
      else FramesAtOpening(start, events[..n])
  }

  /** When the current episode opened. */
  function OpenedAt(start: int, events: seq<Event>): int
    decreases |events|, 0
  {
    if events == [] then start
    else
      var n := |events| - 1;
      if events[n].PLI? && Opens(start, events[..n], events[n].at) then events[n].at else OpenedAt(start, events[..n])
  }

  /** How many PLIs of the current episode were heard. */
  function HeardSince(start: int, events: seq<Event>): nat
    decreases |events|, 0
  {
    if events == [] then 0
    else
      var n := |events| - 1;
      if !events[n].PLI? || !Hears(start, events[..n], events[n].at) then HeardSince(start, events[..n])
      else if Opens(start, events[..n], events[n].at) then 1
      else HeardSince(start, events[..n]) + 1
  }

  /** The encoder was reset less than so long ago. */
  predicate ResetSince(log: seq<Action>, now: int, span: int) {
    LastResetAt(log).Some? && now - LastResetAt(log).value < span
  }

  /** What one event requests:
      a FIR resets the encoder unless one did in the last 15 s;
      a PLI that is not heard requests nothing; one that opens an episode requests a
      keyframe, after a return to normal unless it is the first of all; in the reset
      level it repeats the reset once more than 15 s have passed; otherwise it requests
      a keyframe until it is the episode's sixth or more than 3 s after the first, and
      then a reset, or nothing while the last reset is less than 15 s old. */
  function Reaction(start: int, events: seq<Event>, e: Event): seq<Action>
    decreases |events|, 3
  {
    var log := History(start, events);
    match e
    case Progress(_, _) => []
    case FIR(now) =>
      if LastFIRAt(log).Some? && now - LastFIRAt(log).value < 15 * SECOND then [] else [ResetByFIR(now)]
    case PLI(now) =>
      if !Hears(start, events, now) then []
      else if Opens(start, events, now) then
        (if log == [] then [] else [BackToNormal(now)]) + [RequestKeyframe(now)]
      else if InReset(log) then
        if ResetSince(log, now, 15 * SECOND + 1) then [] else [ResetByPLI(now)]
      else if HeardSince(start, events) + 1 >= 6 || now - OpenedAt(start, events) > 3 * SECOND then
        if ResetSince(log, now, 15 * SECOND) then [] else [ResetByPLI(now)]
      else [RequestKeyframe(now)]
  }

  lemma LastAppend(log: seq<Action>, a: Action)
    ensures LastResetAt(log + [a]) == if IsReset(a) then Some(a.at) else LastResetAt(log)
    ensures LastFIRAt(log + [a]) == if a.ResetByFIR? then Some(a.at) else LastFIRAt(log)
    ensures InReset(log + [a]) <==> IsReset(a)
  {
    assert (log + [a])[..|log|] == log;
  }

  /** What the machine's fields stand for. */
  ghost predicate Matches(s: State, log: seq<Action>, start: int, events: seq<Event>) {
    && log == History(start, events)
    && s.lastPLI == LastHeard(start, events)
    && s.lastDecoded == Frames(events)
    && s.decodedAtChange == FramesAtOpening(start, events) <= Frames(events)
    && s.lastReset == LastResetAt(log) && s.lastFIR == LastFIRAt(log)
    && s.level == (if log == [] then Normal else if InReset(log) then Reset else Request)
    && (s.level == Request ==> s.count == HeardSince(start, events))
    && (s.level == Request && Frames(events) <= FramesAtOpening(start, events) ==>
          s.lastDecodedTime == OpenedAt(start, events))
  }

  lemma FIRMatches(s: State, log: seq<Action>, start: int, events: seq<Event>, now: int)
    requires Matches(s, log, start, events)
    ensures Matches(OnFIR(s, now).0, log + OnFIR(s, now).1, start, events + [FIR(now)])
  {
    assert (events + [FIR(now)])[..|events|] == events;
    if OnFIR(s, now).1 == [] {
      assert log + [] == log;
    } else {
      LastAppend(log, ResetByFIR(now));
    }
  }

  lemma ProgressMatches(s: State, log: seq<Action>, start: int, events: seq<Event>, now: int, decoded: nat)
    requires Matches(s, log, start, events)
    ensures Matches(OnProgress(s, now, decoded), log, start, events + [Progress(now, decoded)])
  {
    assert (events + [Progress(now, decoded)])[..|events|] == events;
    assert log + [] == log;
  }

  lemma PLIReacts(s: State, log: seq<Action>, start: int, events: seq<Event>, now: int)
    requires Matches(s, log, start, events)
    ensures OnPLI(s, now).1 == Reaction(start, events, PLI(now))
    ensures Accepts(s, now) <==> Hears(start, events, now)
    ensures Accepts(s, now) && (s.level == Normal || Healed(s)) <==> Opens(start, events, now)
  {}

  /** What a heard PLI does to the fields. */
  lemma HeardFields(s: State, now: int)
    requires Accepts(s, now)
    ensures var (t, acts) := OnPLI(s, now);
            && t.lastPLI == now && t.lastDecoded == s.lastDecoded && t.lastFIR == s.lastFIR
            && (EpisodeOver(s) ==>
                  t.level == Request && t.count == 1 && t.lastDecodedTime == now && t.decodedAtChange == s.lastDecoded
                  && t.lastReset == s.lastReset
                  && acts == (if s.level == Normal then [] else [BackToNormal(now)]) + [RequestKeyframe(now)])
            && (!EpisodeOver(s) ==>
                  && t.decodedAtChange == s.decodedAtChange && t.lastDecodedTime == s.lastDecodedTime
                  && (acts == [] || acts == [RequestKeyframe(now)] || acts == [ResetByPLI(now)])
                  && t.lastReset == (if acts == [ResetByPLI(now)] then Some(now) else s.lastReset)
                  && t.level == (if acts == [ResetByPLI(now)] then Reset else s.level)
                  && (s.level == Reset ==> acts != [RequestKeyframe(now)])
                  && (t.level == Request ==> t.count == s.count + 1))
  {}

  lemma PLIMatches(s: State, log: seq<Action>, start: int, events: seq<Event>, now: int)
    requires Matches(s, log, start, events)
    ensures Matches(OnPLI(s, now).0, log + OnPLI(s, now).1, start, events + [PLI(now)])
  {
    assert (events + [PLI(now)])[..|events|] == events;
    PLIReacts(s, log, start, events, now);
    if !Accepts(s, now) {
      assert log + [] == log;
    } else {
      HeardFields(s, now);
      var acts := OnPLI(s, now).1;
      if |acts| == 2 {
        LastAppend(log, BackToNormal(now));
        LastAppend(log + [BackToNormal(now)], RequestKeyframe(now));
        assert log + acts == log + [BackToNormal(now)] + [RequestKeyframe(now)];
      } else if acts == [] {
        assert log + [] == log;
      } else {
        LastAppend(log, acts[0]);
        assert acts == [acts[0]];
      }
    }
  }

  lemma {:induction false} RunMatches(start: int, events: seq<Event>)
    ensures Matches(After(Start(start), events), Log(Start(start), events), start, events)
  {
    if events != [] {
      var n := |events| - 1;
      RunMatches(start, events[..n]);
      var s, log := After(Start(start), events[..n]), Log(Start(start), events[..n]);
      assert events[..n] + [events[n]] == events;
      match events[n]
      case PLI(now) => PLIMatches(s, log, start, events[..n], now);
      case FIR(now) => FIRMatches(s, log, start, events[..n], now);
      case Progress(now, decoded) =>
        ProgressMatches(s, log, start, events[..n], now, decoded);
        assert log + [] == log;
    }
  }

  /** The machine requests exactly what the events call for, over every run. */
  lemma HistoryDecides(start: int, events: seq<Event>)
    ensures Log(Start(start), events) == History(start, events)
  {
    RunMatches(start, events);
  }
}
