/** Picture-loss recovery: keyframe requests first, encoder resets as a last resort.

  Times are nanoseconds of one monotone clock, read once per event.  None stands
  for Go's zero time, which is further back than any throttle.
*/
module PliRecovery {
  import opened Common

  const BASE_INTERVAL := 1 * SECOND
  const RESET_INTERVAL := 10 * SECOND
  const MIN_RESET_INTERVAL := 15 * SECOND
  const STUCK := 3 * SECOND
  const ESCALATE_COUNT := 6

  datatype Level = Normal | Request | Reset

  datatype State = State(
    level: Level,
    count: nat,
    lastDecoded: nat,
    decodedAtChange: nat,
    lastDecodedTime: int,
    lastPLI: int,
    lastReset: Option<int>,
    lastFIR: Option<int>)

  datatype Event = PLI(at: int) | FIR(at: int) | Progress(at: int, decoded: nat)

  datatype Action =
    | RequestKeyframe(at: int)
    | ResetByPLI(at: int)
    | ResetByFIR(at: int)
    | BackToNormal(at: int)

  function Start(now: int): State {
    State(Normal, 0, 0, 0, now, now, None, None)
  }

  function Throttle(level: Level): int {
    if level == Reset then RESET_INTERVAL else BASE_INTERVAL
  }

  predicate Accepts(s: State, now: int) {
    now - s.lastPLI >= Throttle(s.level)
  }

  predicate Healed(s: State) {
    s.level != Normal && s.lastDecoded > s.decodedAtChange
  }

  function OnPLI(s: State, now: int): (State, seq<Action>) {
    if !Accepts(s, now) then (s, [])
    else
      var counted := s.(lastPLI := now, count := s.count + 1);
      if Healed(s) then
        var r := Recover(counted.(level := Normal, count := 0), now);
        (r.0, [BackToNormal(now)] + r.1)
      else
        Recover(counted, now)
  }

  function Recover(s: State, now: int): (State, seq<Action>) {
    match s.level
    case Normal =>
      (s.(count := 1, level := Request, lastDecodedTime := now, decodedAtChange := s.lastDecoded),
       [RequestKeyframe(now)])
    case Request =>
      if s.count >= ESCALATE_COUNT || now - s.lastDecodedTime > STUCK then
        if Within(s.lastReset, now, MIN_RESET_INTERVAL) then (s, [])
        else (s.(level := Reset, count := 0, lastReset := Some(now)), [ResetByPLI(now)])
      else (s, [RequestKeyframe(now)])
    case Reset =>
      if Within(s.lastReset, now, MIN_RESET_INTERVAL + 1) then (s, [])
      else (s.(lastReset := Some(now)), [ResetByPLI(now)])
  }

  function OnFIR(s: State, now: int): (State, seq<Action>) {
    if Within(s.lastFIR, now, MIN_RESET_INTERVAL) then (s, [])
    else (s.(lastFIR := Some(now), level := Reset, count := 0, lastReset := Some(now)), [ResetByFIR(now)])
  }

  function OnProgress(s: State, now: int, decoded: nat): State {
    if decoded > s.lastDecoded then s.(lastDecoded := decoded, lastDecodedTime := now) else s
  }

  function Step(s: State, e: Event): (State, seq<Action>) {
    match e
    case PLI(now) => OnPLI(s, now)
    case FIR(now) => OnFIR(s, now)
    case Progress(now, decoded) => (OnProgress(s, now, decoded), [])
  }

  class PeerManager {
    var pliCount: nat
    var pliState: Level
    var lastDecoded: nat
    var decodedAtStateChange: nat
    var lastDecodedTime: int
    var lastPLITime: int
    var lastResetTime: Option<int>
    var lastFIR: Option<int>
    var requested: seq<Action>

    ghost function Abs(): State
      reads this
    {
      State(pliState, pliCount, lastDecoded, decodedAtStateChange, lastDecodedTime, lastPLITime,
            lastResetTime, lastFIR)
    }

    constructor (now: int)
      ensures Abs() == Start(now) && requested == []
    {
      pliCount, pliState, lastDecoded, decodedAtStateChange := 0, Normal, 0, 0;
      lastDecodedTime, lastPLITime, lastResetTime, lastFIR := now, now, None, None;
      requested := [];
    }

    method UpdateFramesDecoded(decoded: nat, now: int)
      modifies this`lastDecoded, this`lastDecodedTime
      ensures Abs() == OnProgress(old(Abs()), now, decoded)
    {
      if decoded > lastDecoded {
        lastDecoded := decoded;
        lastDecodedTime := now;
      }
    }

    method HandlePLI(now: int)
      modifies this
      ensures Abs() == OnPLI(old(Abs()), now).0
      ensures requested == old(requested) + OnPLI(old(Abs()), now).1
    {
      var throttle := BASE_INTERVAL;
      if pliState == Reset { throttle := RESET_INTERVAL; }
      if now - lastPLITime < throttle { return; }
      lastPLITime := now;
      pliCount := pliCount + 1;
      if pliState != Normal && lastDecoded > decodedAtStateChange {
        pliState := Normal;
        pliCount := 0;
        requested := requested + [BackToNormal(now)];
      }
      match pliState
      case Normal =>
        pliCount := 1;
        pliState := Request;
        lastDecodedTime := now;
        decodedAtStateChange := lastDecoded;
        requested := requested + [RequestKeyframe(now)];
      case Request =>
        if pliCount >= ESCALATE_COUNT || now - lastDecodedTime > STUCK {
          if lastResetTime.Some? && now - lastResetTime.value < MIN_RESET_INTERVAL { return; }
          pliState := Reset;
          pliCount := 0;
          lastResetTime := Some(now);
          requested := requested + [ResetByPLI(now)];
        } else {
          requested := requested + [RequestKeyframe(now)];
        }
      case Reset =>
        if lastResetTime.None? || now - lastResetTime.value > MIN_RESET_INTERVAL {
          lastResetTime := Some(now);
          requested := requested + [ResetByPLI(now)];
        }
    }

    method HandleFIR(now: int)
      modifies this
      ensures Abs() == OnFIR(old(Abs()), now).0
      ensures requested == old(requested) + OnFIR(old(Abs()), now).1
    {
      if lastFIR.Some? && now - lastFIR.value < MIN_RESET_INTERVAL { return; }
      lastFIR := Some(now);
      pliState := Reset;
      pliCount := 0;
      lastResetTime := Some(now);
      requested := requested + [ResetByFIR(now)];
    }
  }

  // ---------------------------------------------------------------------
  // Runs
  // ---------------------------------------------------------------------

  function After(s: State, events: seq<Event>): State {
    if events == [] then s
    else Step(After(s, events[..|events| - 1]), events[|events| - 1]).0
  }

  /** Everything requested along the run, in order. */
  function Log(s: State, events: seq<Event>): seq<Action> {
    if events == [] then []
    else
      var n := |events| - 1;
      Log(s, events[..n]) + Step(After(s, events[..n]), events[n]).1
  }

  /** The clock never runs backwards. */
  ghost predicate Timed(start: int, events: seq<Event>) {
    && (forall i :: 0 <= i < |events| ==> start <= events[i].at)
    && (forall i, j :: 0 <= i < j < |events| ==> events[i].at <= events[j].at)
  }

  predicate IsReset(a: Action) {
    a.ResetByPLI? || a.ResetByFIR?
  }

  predicate ByPLI(a: Action) {
    a.RequestKeyframe? || a.ResetByPLI?
  }

  /** What the state remembers of the log. */
  ghost predicate Remembers(s: State, log: seq<Action>) {
    && (forall a :: a in log && IsReset(a) ==> s.lastReset.Some? && a.at <= s.lastReset.value)
    && (forall a :: a in log && a.ResetByFIR? ==> s.lastFIR.Some? && a.at <= s.lastFIR.value)
    && (forall a :: a in log && ByPLI(a) ==> a.at <= s.lastPLI)
  }

  /** Any two resets less than 15 s apart are PLI-driven, then FIR-driven; any two
      PLI-driven actions are at least 1 s apart. */
  ghost predicate Spaced(log: seq<Action>) {
    && (forall i, j :: 0 <= i < j < |log| && IsReset(log[i]) && IsReset(log[j])
                       && log[j].at - log[i].at < MIN_RESET_INTERVAL
          ==> log[i].ResetByPLI? && log[j].ResetByFIR?)
    && (forall i, j :: 0 <= i < j < |log| && ByPLI(log[i]) && ByPLI(log[j])
          ==> log[j].at - log[i].at >= BASE_INTERVAL)
  }

  lemma SpacedAppend(s: State, log: seq<Action>, a: Action)
    requires Remembers(s, log) && Spaced(log)
    requires a.ResetByPLI? ==> !Within(s.lastReset, a.at, MIN_RESET_INTERVAL)
    requires a.ResetByFIR? ==> !Within(s.lastFIR, a.at, MIN_RESET_INTERVAL)
    requires ByPLI(a) ==> a.at - s.lastPLI >= BASE_INTERVAL
    ensures Spaced(log + [a])
  {
    var l := log + [a];
    forall i, j | 0 <= i < j < |l| && IsReset(l[i]) && IsReset(l[j])
                  && l[j].at - l[i].at < MIN_RESET_INTERVAL
      ensures l[i].ResetByPLI? && l[j].ResetByFIR?
    {
      if j == |log| { assert l[i] in log; }
    }
    forall i, j | 0 <= i < j < |l| && ByPLI(l[i]) && ByPLI(l[j])
      ensures l[j].at - l[i].at >= BASE_INTERVAL
    {
      if j == |log| { assert l[i] in log; }
    }
  }

  ghost predicate Good(s: State, log: seq<Action>) {
    Remembers(s, log) && Spaced(log)
  }

  predicate Past(s: State, now: int) {
    && s.lastPLI <= now
    && (s.lastReset.Some? ==> s.lastReset.value <= now)
    && (s.lastFIR.Some? ==> s.lastFIR.value <= now)
  }

  /** One requested action, from state s to state t. */
  lemma ActionGood(s: State, t: State, log: seq<Action>, a: Action)
    requires Good(s, log) && Past(s, a.at)
    requires t.lastReset == if IsReset(a) then Some(a.at) else s.lastReset
    requires t.lastFIR == if a.ResetByFIR? then Some(a.at) else s.lastFIR
    requires if ByPLI(a) then t.lastPLI == a.at else t.lastPLI >= s.lastPLI
    requires a.ResetByPLI? ==> !Within(s.lastReset, a.at, MIN_RESET_INTERVAL)
    requires a.ResetByFIR? ==> !Within(s.lastFIR, a.at, MIN_RESET_INTERVAL)
    requires ByPLI(a) ==> a.at - s.lastPLI >= BASE_INTERVAL
    ensures Good(t, log + [a])
  {
    SpacedAppend(s, log, a);
  }

  /** A step that requests nothing. */
  lemma QuietGood(s: State, t: State, log: seq<Action>)
    requires Good(s, log)
    requires t.lastReset == s.lastReset && t.lastFIR == s.lastFIR && t.lastPLI >= s.lastPLI
    ensures Good(t, log + [])
  {
    assert log + [] == log;
  }

  lemma HealedGood(s: State, log: seq<Action>, now: int)
    requires Good(s, log) && Past(s, now) && Accepts(s, now) && Healed(s)
    ensures Good(OnPLI(s, now).0, log + OnPLI(s, now).1)
  {
    var mid := s.(level := Normal);
    var t := OnPLI(s, now).0;
    ActionGood(s, mid, log, BackToNormal(now));
    ActionGood(mid, t, log + [BackToNormal(now)], RequestKeyframe(now));
    assert log + OnPLI(s, now).1 == log + [BackToNormal(now)] + [RequestKeyframe(now)];
  }

  lemma PLIGood(s: State, log: seq<Action>, now: int)
    requires Good(s, log) && Past(s, now)
    ensures Good(OnPLI(s, now).0, log + OnPLI(s, now).1) && Past(OnPLI(s, now).0, now)
  {
    var (t, acts) := OnPLI(s, now);
    if acts == [] {
      QuietGood(s, t, log);
    } else if Healed(s) {
      HealedGood(s, log, now);
    } else {
      assert acts == [acts[0]];
      ActionGood(s, t, log, acts[0]);
    }
  }

  lemma StepGood(s: State, log: seq<Action>, e: Event)
    requires Good(s, log) && Past(s, e.at)
    ensures Good(Step(s, e).0, log + Step(s, e).1) && Past(Step(s, e).0, e.at)
  {
    match e
    case PLI(now) => PLIGood(s, log, now);
    case FIR(now) =>
      var (t, acts) := OnFIR(s, now);
      if acts == [] { QuietGood(s, t, log); } else { ActionGood(s, t, log, acts[0]); }
    case Progress(now, decoded) => QuietGood(s, OnProgress(s, now, decoded), log);
  }

  lemma {:induction false} RunGood(start: int, events: seq<Event>)
    requires Timed(start, events)
    ensures Good(After(Start(start), events), Log(Start(start), events))
    ensures var s := After(Start(start), events);
            var now := if events == [] then start else events[|events| - 1].at;
            Past(s, now)
  {
    if events != [] {
      var n := |events| - 1;
      RunGood(start, events[..n]);
      StepGood(After(Start(start), events[..n]), Log(Start(start), events[..n]), events[n]);
    }
  }

  /** Any two resets less than 15 s apart are a PLI-driven one and then a FIR-driven one. */
  lemma ResetPair(start: int, events: seq<Event>, i: nat, j: nat)
    requires Timed(start, events)
    requires var log := Log(Start(start), events); i < j < |log| && IsReset(log[i]) && IsReset(log[j])
    ensures var log := Log(Start(start), events);
            log[j].at - log[i].at < MIN_RESET_INTERVAL ==> log[i].ResetByPLI? && log[j].ResetByFIR?
  {
    RunGood(start, events);
  }

  /** Encoder reset rate: of any three resets the first and the last are at least
      15 s apart. */
  lemma ResetRate(start: int, events: seq<Event>, i: nat, j: nat, k: nat)
    requires Timed(start, events)
    requires var log := Log(Start(start), events);
             i < j < k < |log| && IsReset(log[i]) && IsReset(log[j]) && IsReset(log[k])
    ensures var log := Log(Start(start), events); log[k].at - log[i].at >= MIN_RESET_INTERVAL
  {
    ResetPair(start, events, i, j);
    ResetPair(start, events, j, k);
    LogSorted(start, events, i, j);
    LogSorted(start, events, j, k);
  }

  lemma {:induction false} LogSorted(start: int, events: seq<Event>, i: nat, j: nat)
    requires Timed(start, events) && i < j < |Log(Start(start), events)|
    ensures var log := Log(Start(start), events);
            log[i].at <= log[j].at <= events[|events| - 1].at
  {
    var n := |events| - 1;
    var log := Log(Start(start), events[..n]);
    if j < |log| {
      LogSorted(start, events[..n], i, j);
    } else if i < |log| {
      LogBefore(start, events[..n], i);
    }
  }

  lemma {:induction false} LogBefore(start: int, events: seq<Event>, i: nat)
    requires Timed(start, events) && i < |Log(Start(start), events)|
    ensures Log(Start(start), events)[i].at <= events[|events| - 1].at
  {
    var n := |events| - 1;
    if i < |Log(Start(start), events[..n])| { LogBefore(start, events[..n], i); }
  }

  /** Keyframe requests are at least 1 s apart over every run. */
  lemma KeyframeRate(start: int, events: seq<Event>, i: nat, j: nat)
    requires Timed(start, events)
    requires var log := Log(Start(start), events);
             i < j < |log| && log[i].RequestKeyframe? && log[j].RequestKeyframe?
    ensures var log := Log(Start(start), events); log[j].at - log[i].at >= BASE_INTERVAL
  {
    RunGood(start, events);
  }

  // ---------------------------------------------------------------------
  // Last resort
  // ---------------------------------------------------------------------

  /** The run went back to normal somewhere in log[i..j]. */
  ghost predicate HealedWithin(log: seq<Action>, i: nat, j: nat)
    requires i <= j <= |log|
  {
    exists k :: i <= k < j && log[k].BackToNormal?
  }

  /** A keyframe was requested before entry j, in the same episode. */
  ghost predicate Asked(log: seq<Action>, j: nat)
    requires j <= |log|
  {
    exists i :: 0 <= i < j && log[i].RequestKeyframe? && !HealedWithin(log, i, j)
  }

  /** How episodes open.  Only the first one of a run can open with a FIR: every
      later one opens with a keyframe request. */
  ghost predicate Opened(s: State, log: seq<Action>) {
    && (log == [] <==> s.level == Normal)
    && (log != [] ==> log[0].RequestKeyframe? || log[0].ResetByFIR?)
    && (forall i :: 0 <= i < |log| && log[i].BackToNormal? ==> i + 1 < |log| && log[i + 1].RequestKeyframe?)
    && (log != [] && log[0].ResetByFIR? ==>
          && (HealedWithin(log, 0, |log|) || s.level == Reset)
          && forall i :: 0 <= i < |log| && log[i].RequestKeyframe? ==> HealedWithin(log, 0, i))
  }

  lemma OpenedAppend(s: State, t: State, log: seq<Action>, a: Action)
    requires Opened(s, log) && !a.BackToNormal?
    requires a.RequestKeyframe? ==> s.level != Reset && t.level == Request
    requires IsReset(a) ==> t.level == Reset
    requires a.ResetByPLI? ==> s.level != Normal
    ensures Opened(t, log + [a])
  {
    var l := log + [a];
    assert l[..|log|] == log;
    if log != [] && log[0].ResetByFIR? {
      HealedPrefix(log, [a], |log|);
      forall i | 0 <= i < |l| && l[i].RequestKeyframe? ensures HealedWithin(l, 0, i) {
        HealedPrefix(log, [a], if i < |log| then i else |log|);
      }
    }
  }

  lemma HealedPrefix(log: seq<Action>, more: seq<Action>, j: nat)
    requires j <= |log|
    ensures HealedWithin(log, 0, j) ==> HealedWithin(log + more, 0, j) && HealedWithin(log + more, 0, |log + more|)
  {
    forall k | 0 <= k < j && log[k].BackToNormal? ensures (log + more)[k].BackToNormal? {}
  }

  lemma OpenedHeal(s: State, t: State, log: seq<Action>, now: int)
    requires Opened(s, log) && s.level != Normal && t.level == Request
    ensures Opened(t, log + [BackToNormal(now), RequestKeyframe(now)])
  {
    var l := log + [BackToNormal(now), RequestKeyframe(now)];
    assert l[|log|].BackToNormal?;
    assert HealedWithin(l, 0, |log| + 1) && HealedWithin(l, 0, |l|);
    forall i | 0 <= i < |l| && l[i].RequestKeyframe? && l[0].ResetByFIR? ensures HealedWithin(l, 0, i) {
      if i < |log| { HealedPrefix(log, [BackToNormal(now), RequestKeyframe(now)], i); }
    }
  }

  lemma StepOpened(s: State, log: seq<Action>, e: Event)
    requires Opened(s, log)
    ensures Opened(Step(s, e).0, log + Step(s, e).1)
  {
    var (t, acts) := Step(s, e);
    if acts == [] {
      assert log + [] == log;
    } else if |acts| == 1 {
      assert acts == [acts[0]];
      OpenedAppend(s, t, log, acts[0]);
    } else {
      assert acts == [BackToNormal(e.at), RequestKeyframe(e.at)];
      OpenedHeal(s, t, log, e.at);
    }
  }

  lemma {:induction false} RunOpened(start: int, events: seq<Event>)
    ensures Opened(After(Start(start), events), Log(Start(start), events))
  {
    if events != [] {
      var n := |events| - 1;
      RunOpened(start, events[..n]);
      StepOpened(After(Start(start), events[..n]), Log(Start(start), events[..n]), events[n]);
    }
  }

  /** Where the episode of entry j begins, after some return to normal. */
  lemma EpisodeStart(s: State, log: seq<Action>, j: nat) returns (i: nat)
    requires Opened(s, log) && j < |log| && !log[j].RequestKeyframe?
    requires HealedWithin(log, 0, j) || log[0].RequestKeyframe?
    ensures i < j && log[i].RequestKeyframe? && !HealedWithin(log, i, j)
  {
    if HealedWithin(log, 0, j) {
      i := LastHealing(log, j);
      i := i + 1;
    } else {
      i := 0;
    }
  }

  lemma {:induction false} LastHealing(log: seq<Action>, j: nat) returns (k: nat)
    requires j <= |log| && HealedWithin(log, 0, j)
    ensures k < j && log[k].BackToNormal? && !HealedWithin(log, k + 1, j)
  {
    k := j - 1;
    if !log[k].BackToNormal? {
      k := LastHealing(log, j - 1);
    }
  }

  /** The last resort, exactly: before a PLI-driven reset a keyframe was requested in
      the same episode, unless the run opened with a FIR and has not healed since. */
  lemma ResetIsLastResort(start: int, events: seq<Event>, j: nat)
    requires j < |Log(Start(start), events)| && Log(Start(start), events)[j].ResetByPLI?
    ensures var log := Log(Start(start), events);
            Asked(log, j) <==> !(log[0].ResetByFIR? && !HealedWithin(log, 0, j))
  {
    RunOpened(start, events);
    var log := Log(Start(start), events);
    if log[0].RequestKeyframe? || HealedWithin(log, 0, j) {
      var i := EpisodeStart(After(Start(start), events), log, j);
    } else {
      forall i | 0 <= i < j && log[i].RequestKeyframe? ensures HealedWithin(log, 0, i) {}
    }
  }

  /** The exception is real: an episode opened by a FIR can reset the encoder again on
      a PLI without one keyframe request. */
  lemma FIRSkipsKeyframe()
    ensures Log(Start(0), [FIR(0), PLI(16 * SECOND)]) == [ResetByFIR(0), ResetByPLI(16 * SECOND)]
  {
    var events := [FIR(0), PLI(16 * SECOND)];
    assert events[..1] == [FIR(0)] && events[..1][..0] == [];
    assert Log(Start(0), events[..1]) == [ResetByFIR(0)];
  }

  /** The close pair is real too: a FIR may reset the encoder right after a PLI did. */
  lemma FIRFollowsClosely()
    ensures var log := Log(Start(0), [PLI(1 * SECOND), PLI(5 * SECOND), FIR(5 * SECOND)]);
            |log| == 3 && log[1..] == [ResetByPLI(5 * SECOND), ResetByFIR(5 * SECOND)]
  {
    var events := [PLI(1 * SECOND), PLI(5 * SECOND), FIR(5 * SECOND)];
    assert events[..2] == [PLI(1 * SECOND), PLI(5 * SECOND)];
    assert events[..2][..1] == [PLI(1 * SECOND)] && events[..2][..1][..0] == [];
    assert Log(Start(0), events[..2][..1]) == [RequestKeyframe(1 * SECOND)];
    assert Log(Start(0), events[..2]) == [RequestKeyframe(1 * SECOND), ResetByPLI(5 * SECOND)];
  }

  // ---------------------------------------------------------------------
  // Resets within one episode
  // ---------------------------------------------------------------------

  /** A reset keeps its episode in the reset level: until it heals no keyframe is
      requested, and a PLI resets again only after more than 15 s. */
  ghost predicate Held(s: State, log: seq<Action>, i: nat)
    requires i < |log|
  {
    && (HealedWithin(log, i, |log|) || s.level == Reset)
    && (forall k :: i < k < |log| && !HealedWithin(log, i, k) ==>
          !log[k].RequestKeyframe? && (log[k].ResetByPLI? ==> log[k].at - log[i].at > MIN_RESET_INTERVAL))
  }

  ghost predicate ResetsHeld(s: State, log: seq<Action>) {
    forall i :: 0 <= i < |log| && IsReset(log[i]) ==> Held(s, log, i)
  }

  lemma HealedPrefixFrom(log: seq<Action>, more: seq<Action>, i: nat, j: nat)
    requires i <= j <= |log|
    ensures HealedWithin(log + more, i, j) <==> HealedWithin(log, i, j)
  {
    assert forall k :: i <= k < j ==> (log + more)[k] == log[k];
  }

  /** One more action; `i` is an earlier reset. */
  lemma HeldAppend(s: State, t: State, log: seq<Action>, a: Action, i: nat)
    requires i < |log| && Held(s, log, i)
    requires a.BackToNormal? || s.level != Reset || t.level == Reset
    requires a.RequestKeyframe? ==> s.level != Reset
    requires a.ResetByPLI? && s.level == Reset ==> a.at - log[i].at > MIN_RESET_INTERVAL
    ensures Held(t, log + [a], i)
  {
    var l := log + [a];
    HealedPrefixFrom(log, [a], i, |log|);
    assert l[|log|] == a;
    assert HealedWithin(l, i, |l|) <==> HealedWithin(l, i, |log|) || a.BackToNormal?;
    forall k | i < k < |l| && !HealedWithin(l, i, k)
      ensures !l[k].RequestKeyframe? && (l[k].ResetByPLI? ==> l[k].at - l[i].at > MIN_RESET_INTERVAL)
    {
      HealedPrefixFrom(log, [a], i, k);
    }
  }

  lemma ResetsHeldAppend(s: State, t: State, log: seq<Action>, a: Action)
    requires ResetsHeld(s, log) && Remembers(s, log)
    requires a.BackToNormal? || s.level != Reset || t.level == Reset
    requires a.RequestKeyframe? ==> s.level != Reset
    requires a.ResetByPLI? && s.level == Reset ==> !Within(s.lastReset, a.at, MIN_RESET_INTERVAL + 1)
    requires IsReset(a) ==> t.level == Reset
    ensures ResetsHeld(t, log + [a])
  {
    var l := log + [a];
    forall i | 0 <= i < |l| && IsReset(l[i]) ensures Held(t, l, i) {
      if i < |log| {
        assert log[i] in log && Held(s, log, i);
        HeldAppend(s, t, log, a, i);
      }
    }
  }

  /** A healing closes every episode before it. */
  lemma ResetsHeldHeal(s: State, t: State, log: seq<Action>, now: int)
    requires ResetsHeld(s, log) && Remembers(s, log)
    ensures ResetsHeld(t, log + [BackToNormal(now), RequestKeyframe(now)])
  {
    var mid := s.(level := Normal);
    var l := log + [BackToNormal(now)];
    ResetsHeldAppend(s, mid, log, BackToNormal(now));
    forall i | 0 <= i < |l| && IsReset(l[i]) ensures Held(t, l + [RequestKeyframe(now)], i) {
      assert Held(mid, l, i) && l[|log|].BackToNormal?;
      HeldAppend(mid, t, l, RequestKeyframe(now), i);
    }
    assert l + [RequestKeyframe(now)] == log + [BackToNormal(now), RequestKeyframe(now)];
  }

  lemma StepHeld(s: State, log: seq<Action>, e: Event)
    requires ResetsHeld(s, log) && Remembers(s, log)
    ensures ResetsHeld(Step(s, e).0, log + Step(s, e).1)
  {
    var (t, acts) := Step(s, e);
    if acts == [] {
      assert log + [] == log && t.level == s.level;
      forall i | 0 <= i < |log| && IsReset(log[i]) ensures Held(t, log, i) { assert Held(s, log, i); }
    } else if |acts| == 1 {
      assert acts == [acts[0]];
      ResetsHeldAppend(s, t, log, acts[0]);
    } else {
      assert acts == [BackToNormal(e.at), RequestKeyframe(e.at)];
      ResetsHeldHeal(s, t, log, e.at);
    }
  }

  lemma {:induction false} RunHeld(start: int, events: seq<Event>)
    requires Timed(start, events)
    ensures ResetsHeld(After(Start(start), events), Log(Start(start), events))
  {
    if events != [] {
      var n := |events| - 1;
      RunHeld(start, events[..n]);
      RunGood(start, events[..n]);
      StepHeld(After(Start(start), events[..n]), Log(Start(start), events[..n]), events[n]);
    }
  }

  /** Repeating a reset: from any reset to a later PLI-driven one of the same episode
      more than 15 s pass, and no keyframe is requested in between. */
  lemma RepeatedReset(start: int, events: seq<Event>, i: nat, j: nat)
    requires Timed(start, events)
    requires var log := Log(Start(start), events);
             i < j < |log| && IsReset(log[i]) && log[j].ResetByPLI? && !HealedWithin(log, i, j)
    ensures var log := Log(Start(start), events);
            && log[j].at - log[i].at > MIN_RESET_INTERVAL
            && forall k :: i < k < j ==> !log[k].RequestKeyframe?
  {
    RunHeld(start, events);
    var log := Log(Start(start), events);
    assert Held(After(Start(start), events), log, i);
    forall k | i < k < j ensures !log[k].RequestKeyframe? {
      assert !HealedWithin(log, i, k);
    }
  }

  // ---------------------------------------------------------------------
  // Bounded escalation
  // ---------------------------------------------------------------------

  /** The next PLI that is heard opens an episode: nothing was requested yet, or frames
      were decoded since the current one began. */
  predicate EpisodeOver(s: State) {
    s.level == Normal || Healed(s)
  }

  /** No FIR, and no report of more decoded frames than were known at the start. */
  ghost predicate Stuck(s: State, events: seq<Event>) {
    forall i :: 0 <= i < |events| ==>
      !events[i].FIR? && (events[i].Progress? ==> events[i].decoded <= s.lastDecoded)
  }

  function Accepted(s: State, events: seq<Event>): nat {
    if events == [] then 0
    else
      var n := |events| - 1;
      Accepted(s, events[..n])
      + if events[n].PLI? && Accepts(After(s, events[..n]), events[n].at) then 1 else 0
  }

  /** When the episode's first PLI was accepted. */
  function FirstAccepted(s: State, events: seq<Event>): Option<int> {
    if events == [] then None
    else
      var n := |events| - 1;
      if FirstAccepted(s, events[..n]).Some? then FirstAccepted(s, events[..n])
      else if events[n].PLI? && Accepts(After(s, events[..n]), events[n].at) then Some(events[n].at)
      else None
  }

  ghost predicate HasPLIReset(log: seq<Action>) {
    exists i :: 0 <= i < |log| && log[i].ResetByPLI?
  }

  lemma HasPLIResetConcat(a: seq<Action>, b: seq<Action>)
    ensures HasPLIReset(a + b) <==> HasPLIReset(a) || HasPLIReset(b)
  {
    forall i | 0 <= i < |a| ensures (a + b)[i] == a[i] {}
    forall i | 0 <= i < |b| ensures (a + b)[|a| + i] == b[i] {}
  }

  /** Until the first PLI-driven reset, the count is the number of accepted PLIs and
      the stall is timed from the first of them. */
  lemma {:induction false} CountsUntilReset(s: State, events: seq<Event>)
    requires EpisodeOver(s) && Stuck(s, events) && !HasPLIReset(Log(s, events))
    ensures var t := After(s, events);
            && t.lastDecoded == s.lastDecoded && t.lastReset == s.lastReset
            && (Accepted(s, events) == 0 <==> FirstAccepted(s, events) == None)
            && (if Accepted(s, events) == 0 then t.level == s.level && t.decodedAtChange == s.decodedAtChange
                else t.level == Request && t.count == Accepted(s, events)
                     && t.decodedAtChange == t.lastDecoded
                     && FirstAccepted(s, events) == Some(t.lastDecodedTime))
  {
    if events != [] {
      var n := |events| - 1;
      var acts := Step(After(s, events[..n]), events[n]).1;
      HasPLIResetConcat(Log(s, events[..n]), acts);
      CountsUntilReset(s, events[..n]);
      NoResetKeeps(After(s, events[..n]), events[n]);
    }
  }

  /** Only a reset sets the time of the last one. */
  lemma NoResetKeeps(s: State, e: Event)
    requires !e.FIR? && !HasPLIReset(Step(s, e).1)
    ensures Step(s, e).0.lastReset == s.lastReset
  {
    var acts := Step(s, e).1;
    assert acts != [] ==> !acts[0].ResetByPLI?;
  }

  /** Escalation, exactly, in every episode: for a stuck decoder not reset yet in it, an
      accepted PLI resets the encoder if and only if it is at least the sixth or comes
      more than 3 s after the first, and the last reset, of whichever episode, is at
      least 15 s ago. */
  lemma EscalationExactly(s: State, events: seq<Event>)
    requires EpisodeOver(s) && Stuck(s, events)
    requires events != [] && events[|events| - 1].PLI?
    requires Accepts(After(s, events[..|events| - 1]), events[|events| - 1].at)
    requires !HasPLIReset(Log(s, events[..|events| - 1]))
    ensures var now := events[|events| - 1].at;
            HasPLIReset(Log(s, events)) <==>
              && (Accepted(s, events) >= ESCALATE_COUNT
                  || (FirstAccepted(s, events).Some? && now - FirstAccepted(s, events).value > STUCK))
              && !Within(s.lastReset, now, MIN_RESET_INTERVAL)
  {
    var n := |events| - 1;
    var acts := Step(After(s, events[..n]), events[n]).1;
    HasPLIResetConcat(Log(s, events[..n]), acts);
    CountsUntilReset(s, events[..n]);
    assert |acts| == 2 ==> !acts[0].ResetByPLI? && !acts[1].ResetByPLI?;
    assert HasPLIReset(acts) <==> acts != [] && acts[0].ResetByPLI?;
  }

  /** In every episode a stuck decoder gets its encoder reset no later than its sixth
      accepted PLI, once 15 s have passed since the last reset. */
  lemma BoundedEscalation(s: State, events: seq<Event>)
    requires EpisodeOver(s) && Stuck(s, events)
    requires events != [] && events[|events| - 1].PLI?
    requires Accepts(After(s, events[..|events| - 1]), events[|events| - 1].at)
    requires Accepted(s, events) >= ESCALATE_COUNT
    requires !Within(s.lastReset, events[|events| - 1].at, MIN_RESET_INTERVAL)
    ensures HasPLIReset(Log(s, events))
  {
    var n := |events| - 1;
    if HasPLIReset(Log(s, events[..n])) {
      HasPLIResetConcat(Log(s, events[..n]), Step(After(s, events[..n]), events[n]).1);
    } else {
      EscalationExactly(s, events);
    }
  }
}
