/** The bitrate ladder of one session.  Times are nanoseconds of one monotone
    clock; None stands for Go's zero time. */
module BitrateLadder {
  import opened Common

  const HYSTERESIS := 30 * SECOND
  const RECOVERY := 30 * SECOND
  const FALLBACK := 8_000_000
  const DEFAULT_FLOOR := 400_000

  datatype Config = Config(videoBitRate: nat, clearBitrate: int, hdBitrate: int, minVideoBitRate: int)

  datatype Level = Clear | HD | Original

  function TierBitrate(cfg: Config, level: Level): nat {
    match level
    case Clear => if cfg.clearBitrate > 0 then cfg.clearBitrate else 2_000_000
    case HD => if cfg.hdBitrate > 0 then cfg.hdBitrate else 6_000_000
    case Original => cfg.videoBitRate
  }

  /** The levels the platform may select. */
  function LevelNamed(name: string): Option<Level> {
    if name == "clear" then Some(Clear) else if name == "hd" then Some(HD)
    else if name == "original" then Some(Original) else None
  }

  /** What a new session starts at, given the tier bitrate stored on the controller. */
  function CurrentQuality(cfg: Config, stored: nat): nat {
    if stored > 0 then stored else cfg.videoBitRate
  }

  function Floor(cfg: Config): int {
    if cfg.minVideoBitRate <= 0 then DEFAULT_FLOOR else cfg.minVideoBitRate
  }

  datatype Ladder = Ladder(
    tier: nat,                  // initialBitrate
    last: int,
    floor: int,
    lastChange: Option<int>,
    lowSince: Option<int>)      // lastLossLowTime

  function Fresh(bitrate: nat, floor: int): Ladder {
    Ladder(bitrate, bitrate, floor, None, None)
  }

  function BitrateStep(tier: nat, floor: int, loss: real): int {
    if tier == 0 then FALLBACK
    else
      Max(floor,
          if loss > 10.0 then tier / 4
          else if loss > 5.0 then tier / 2
          else if loss > 2.0 then tier * 3 / 4
          else tier)
  }

  datatype Change = Change(at: int, from: int, to: int)

  /** A loss report that reached a running session. */
  function Report(s: Ladder, loss: real, now: int): (Ladder, Option<Change>) {
    var noted := s.(lowSince := if loss < 2.0 then (if s.lowSince.None? then Some(now) else s.lowSince) else None);
    var target := BitrateStep(s.tier, s.floor, loss);
    if target == s.last
       || (target < s.last && Within(s.lastChange, now, HYSTERESIS))
       || (target > s.last && s.last != 0 && (noted.lowSince.None? || Within(noted.lowSince, now, RECOVERY)))
    then (noted, None)
    else (noted.(last := target, lastChange := Some(now), lowSince := None),
          Some(Change(now, s.last, target)))
  }

  function ApplyQuality(s: Ladder, bitrate: nat, now: int): Ladder {
    s.(tier := bitrate, last := bitrate, lastChange := Some(now))
  }

  /** The part of the controller that outlives sessions: the selected tier. */
  class Controller {
    var qualityBitrate: nat

    constructor ()
      ensures qualityBitrate == 0
    {
      qualityBitrate := 0;
    }

    /** SetQuality; the running session, if any, gets the level as an event. */
    method SetQuality(cfg: Config, name: string) returns (ok: bool)
      modifies this
      ensures ok <==> name == "clear" || name == "hd" || name == "original"
      ensures !ok ==> qualityBitrate == old(qualityBitrate)
      ensures name == "clear" ==> qualityBitrate == if cfg.clearBitrate > 0 then cfg.clearBitrate else 2_000_000
      ensures name == "hd" ==> qualityBitrate == if cfg.hdBitrate > 0 then cfg.hdBitrate else 6_000_000
      ensures name == "original" ==> qualityBitrate == cfg.videoBitRate
    {
      var level := LevelNamed(name);
      if level.None? { return false; }
      qualityBitrate := TierBitrate(cfg, level.value);
      return true;
    }

    method CurrentQualityBitrate(cfg: Config) returns (bitrate: nat)
      ensures bitrate == CurrentQuality(cfg, qualityBitrate)
    {
      if qualityBitrate > 0 { return qualityBitrate; }
      return cfg.videoBitRate;
    }

    method NewSessionCtx(cfg: Config) returns (ctx: SessionCtx)
      ensures fresh(ctx) && ctx.ctrl == this
      ensures ctx.Abs() == Fresh(CurrentQuality(cfg, qualityBitrate), Floor(cfg)) && ctx.changes == []
      ensures ctx.initialBitrate == ctx.lastBitrate == if qualityBitrate > 0 then qualityBitrate else cfg.videoBitRate
      ensures ctx.minBitrate == if cfg.minVideoBitRate <= 0 then 400_000 else cfg.minVideoBitRate
    {
      var bitrate := CurrentQualityBitrate(cfg);
      ctx := new SessionCtx(this, cfg, bitrate);
    }
  }

  class SessionCtx {
    const ctrl: Controller
    const minBitrate: int
    var initialBitrate: nat
    var lastBitrate: int
    var lastBitrateChange: Option<int>
    var lastLossLowTime: Option<int>
    var changes: seq<Change>

    ghost function Abs(): Ladder
      reads this
    {
      Ladder(initialBitrate, lastBitrate, minBitrate, lastBitrateChange, lastLossLowTime)
    }

    constructor (ctrl: Controller, cfg: Config, bitrate: nat)
      ensures this.ctrl == ctrl && Abs() == Fresh(bitrate, Floor(cfg)) && changes == []
    {
      this.ctrl := ctrl;
      minBitrate := if cfg.minVideoBitRate <= 0 then DEFAULT_FLOOR else cfg.minVideoBitRate;
      initialBitrate, lastBitrate := bitrate, bitrate;
      lastBitrateChange, lastLossLowTime, changes := None, None, [];
    }

    method MaybeAdjustBitrate(sessionUp: bool, loss: real, now: int)
      modifies this
      ensures !sessionUp ==> Abs() == old(Abs()) && changes == old(changes)
      ensures sessionUp ==>
                && Abs() == Report(old(Abs()), loss, now).0
                && changes == old(changes)
                     + (var c := Report(old(Abs()), loss, now).1; if c.Some? then [c.value] else [])
    {
      if !sessionUp { return; }
      if loss < 2.0 {
        if lastLossLowTime.None? { lastLossLowTime := Some(now); }
      } else {
        lastLossLowTime := None;
      }
      var prev := lastBitrate;
      var target := BitrateStep(initialBitrate, minBitrate, loss);
      if target == prev { return; }
      if target < prev {
        if lastBitrateChange.Some? && now - lastBitrateChange.value < HYSTERESIS { return; }
      }
      if target > prev {
        if prev == 0 {
        } else if lastLossLowTime.None? || now - lastLossLowTime.value < RECOVERY {
          return;
        }
      }
      lastBitrate := target;
      lastBitrateChange := Some(now);
      lastLossLowTime := None;
      changes := changes + [Change(now, prev, target)];
    }

    method ApplyQualityLevel(cfg: Config, level: Level, now: int)
      modifies this, ctrl
      ensures Abs() == ApplyQuality(old(Abs()), TierBitrate(cfg, level), now) && changes == old(changes)
      ensures ctrl.qualityBitrate == TierBitrate(cfg, level)
    {
      var bitrate := TierBitrate(cfg, level);
      ctrl.qualityBitrate := bitrate;
      initialBitrate, lastBitrate := bitrate, bitrate;
      lastBitrateChange := Some(now);
    }
  }

  /** Later sessions inherit the selected tier, as a bitrate: after a change of the
      configuration they start where the level stands now if and only if the level's
      bitrate did not change, or none was configured when it was selected. */
  lemma TierInherited(before: Config, now: Config, level: Level)
    ensures CurrentQuality(before, TierBitrate(before, level)) == TierBitrate(before, level)
    ensures CurrentQuality(now, TierBitrate(before, level)) == TierBitrate(now, level)
       <==> TierBitrate(before, level) == TierBitrate(now, level) || TierBitrate(before, level) == 0
  {}

  // ---------------------------------------------------------------------
  // Runs
  // ---------------------------------------------------------------------

  datatype Event =
    | Loss(at: int, rate: real, sessionUp: bool)
    | Quality(at: int, bitrate: nat)

  function Step(s: Ladder, e: Event): (Ladder, seq<Change>) {
    match e
    case Loss(at, rate, up) =>
      if up then
        var r := Report(s, rate, at);
        (r.0, if r.1.Some? then [r.1.value] else [])
      else (s, [])
    case Quality(at, bitrate) => (ApplyQuality(s, bitrate, at), [])
  }

  function After(s: Ladder, events: seq<Event>): Ladder {
    if events == [] then s else Step(After(s, events[..|events| - 1]), events[|events| - 1]).0
  }

  function Changes(s: Ladder, events: seq<Event>): seq<Change> {
    if events == [] then []
    else
      var n := |events| - 1;
      Changes(s, events[..n]) + Step(After(s, events[..n]), events[n]).1
  }

  /** The clock never runs backwards and every selected tier is positive. */
  ghost predicate Proper(events: seq<Event>) {
    && (forall i, j :: 0 <= i < j < |events| ==> events[i].at <= events[j].at)
    && (forall i :: 0 <= i < |events| && events[i].Quality? ==> events[i].bitrate > 0)
  }

  predicate InRange(s: Ladder) {
    Min(s.tier, s.floor) <= s.last <= Max(s.tier, s.floor)
  }

  ghost predicate Spaced(log: seq<Change>) {
    forall i, j :: 0 <= i < j < |log| ==> log[j].at - log[i].at >= HYSTERESIS
  }

  ghost predicate Remembers(s: Ladder, log: seq<Change>) {
    && (forall c :: c in log ==> s.lastChange.Some? && c.at <= s.lastChange.value)
    && (forall c :: c in log ==> s.lowSince.Some? ==> c.at <= s.lowSince.value)
  }

  /** From event i on, every report that reached the session had low loss. */
  ghost predicate QuietSince(events: seq<Event>, i: int) {
    && 0 <= i < |events| && events[i].Loss? && events[i].sessionUp
    && forall j :: i <= j < |events| && events[j].Loss? && events[j].sessionUp ==> events[j].rate < 2.0
  }

  /** The recovery timer holds the time of a report since when loss was low. */
  ghost predicate TimerBacked(s: Ladder, events: seq<Event>) {
    s.lowSince.Some? ==> exists i :: QuietSince(events, i) && events[i].at == s.lowSince.value
  }

  lemma StepRange(s: Ladder, e: Event)
    requires s.tier > 0 && s.floor > 0 && InRange(s) && (e.Quality? ==> e.bitrate > 0)
    ensures var t := Step(s, e).0; t.tier > 0 && t.floor == s.floor && InRange(t)
  {}

  lemma StepSpaced(s: Ladder, log: seq<Change>, e: Event)
    requires s.tier > 0 && s.floor > 0 && InRange(s)
    requires Spaced(log) && Remembers(s, log) && (s.lastChange.Some? ==> s.lastChange.value <= e.at)
    requires s.lowSince.Some? ==> s.lowSince.value <= e.at
    ensures var (t, more) := Step(s, e);
            && Spaced(log + more) && Remembers(t, log + more)
            && (t.lastChange.Some? ==> t.lastChange.value <= e.at)
            && (t.lowSince.Some? ==> t.lowSince.value <= e.at)
  {
    var (t, more) := Step(s, e);
    var l := log + more;
    forall i, j | 0 <= i < j < |l| ensures l[j].at - l[i].at >= HYSTERESIS {
      if j == |log| { assert l[i] in log; }
    }
    forall c | c in l ensures t.lastChange.Some? && c.at <= t.lastChange.value {
      assert c in log || c in more;
    }
  }

  lemma StepTimer(s: Ladder, events: seq<Event>, e: Event)
    requires TimerBacked(s, events)
    ensures TimerBacked(Step(s, e).0, events + [e])
  {
    var t := Step(s, e).0;
    var all := events + [e];
    if t.lowSince.Some? {
      if s.lowSince.Some? {
        var i :| QuietSince(events, i) && events[i].at == s.lowSince.value;
        assert QuietSince(all, i);
      } else {
        assert QuietSince(all, |events|);
      }
    }
  }

  ghost predicate Good(s: Ladder, events: seq<Event>, log: seq<Change>) {
    && s.tier > 0 && s.floor > 0 && InRange(s) && Spaced(log) && Remembers(s, log) && TimerBacked(s, events)
    && (s.lastChange.Some? ==> events != [] && s.lastChange.value <= events[|events| - 1].at)
    && (s.lowSince.Some? ==> events != [] && s.lowSince.value <= events[|events| - 1].at)
  }

  lemma {:induction false} RunGood(bitrate: nat, floor: int, events: seq<Event>)
    requires bitrate > 0 && floor > 0 && Proper(events)
    ensures Good(After(Fresh(bitrate, floor), events), events, Changes(Fresh(bitrate, floor), events))
    ensures After(Fresh(bitrate, floor), events).floor == floor
  {
    if events != [] {
      var n := |events| - 1;
      RunGood(bitrate, floor, events[..n]);
      var s := After(Fresh(bitrate, floor), events[..n]);
      StepRange(s, events[n]);
      StepSpaced(s, Changes(Fresh(bitrate, floor), events[..n]), events[n]);
      StepTimer(s, events[..n], events[n]);
      assert events[..n] + [events[n]] == events;
    }
  }

  /** Over every run the bitrate stays between tier and floor, and any two ladder
      changes are at least 30 s apart, quality switches in between or not. */
  lemma LadderBounds(bitrate: nat, floor: int, events: seq<Event>)
    requires bitrate > 0 && floor > 0 && Proper(events)
    ensures var s := After(Fresh(bitrate, floor), events);
            Min(s.tier, floor) <= s.last <= Max(s.tier, floor)
    ensures Spaced(Changes(Fresh(bitrate, floor), events))
  {
    RunGood(bitrate, floor, events);
  }

  lemma UpgradeStep(s: Ladder, loss: real, now: int)
    requires s.tier > 0 && s.floor > 0 && InRange(s)
    requires Report(s, loss, now).1.Some? && Report(s, loss, now).1.value.to > s.last
    ensures loss < 2.0 && s.lowSince.Some? && now - s.lowSince.value >= RECOVERY
    ensures Report(s, loss, now).0.last == Max(s.tier, s.floor)
  {}

  /** More loss never means more bitrate, and no loss takes it below a quarter. */
  lemma StepMonotone(tier: nat, floor: int, less: real, more: real)
    requires less <= more
    ensures BitrateStep(tier, floor, more) <= BitrateStep(tier, floor, less)
    ensures tier > 0 ==> Max(floor, tier / 4) <= BitrateStep(tier, floor, more) <= Max(floor, tier)
  {}

  lemma DowngradeStep(s: Ladder, loss: real, now: int)
    requires s.tier > 0 && s.floor > 0 && InRange(s)
    requires Report(s, loss, now).1.Some? && Report(s, loss, now).1.value.to < s.last
    ensures loss > 2.0 && !Within(s.lastChange, now, HYSTERESIS)
  {}

  /** The hysteresis counts from the newest quality switch at the earliest. */
  ghost predicate SwitchesCounted(s: Ladder, events: seq<Event>) {
    forall i :: 0 <= i < |events| && events[i].Quality? ==>
      s.lastChange.Some? && events[i].at <= s.lastChange.value
  }

  lemma {:induction false} RunSwitches(bitrate: nat, floor: int, events: seq<Event>)
    requires bitrate > 0 && floor > 0 && Proper(events)
    ensures SwitchesCounted(After(Fresh(bitrate, floor), events), events)
  {
    if events != [] {
      var n := |events| - 1;
      RunSwitches(bitrate, floor, events[..n]);
      var s, t := After(Fresh(bitrate, floor), events[..n]), After(Fresh(bitrate, floor), events);
      forall i | 0 <= i < n && events[i].Quality? ensures t.lastChange.Some? && events[i].at <= t.lastChange.value {
        assert events[..n][i] == events[i];
      }
    }
  }

  /** The last event of the run lowered the bitrate. */
  ghost predicate Downgrades(s: Ladder, events: seq<Event>) {
    events != [] &&
    (var n := |events| - 1;
     var before := After(s, events[..n]);
     && events[n].Loss? && events[n].sessionUp
     && Report(before, events[n].rate, events[n].at).1.Some?
     && Report(before, events[n].rate, events[n].at).1.value.to < before.last)
  }

  /** Every downgrade answers more than 2 % loss and comes at least 30 s after every
      earlier ladder change and every earlier quality switch. */
  lemma DowngradeAfterHold(bitrate: nat, floor: int, events: seq<Event>)
    requires bitrate > 0 && floor > 0 && Proper(events) && Downgrades(Fresh(bitrate, floor), events)
    ensures var n := |events| - 1;
            && events[n].rate > 2.0
            && (forall c :: c in Changes(Fresh(bitrate, floor), events[..n]) ==> events[n].at - c.at >= HYSTERESIS)
            && (forall i :: 0 <= i < n && events[i].Quality? ==> events[n].at - events[i].at >= HYSTERESIS)
  {
    var n := |events| - 1;
    RunGood(bitrate, floor, events[..n]);
    RunSwitches(bitrate, floor, events[..n]);
    DowngradeStep(After(Fresh(bitrate, floor), events[..n]), events[n].rate, events[n].at);
    forall i | 0 <= i < n && events[i].Quality? ensures events[n].at - events[i].at >= HYSTERESIS {
      assert events[..n][i] == events[i];
    }
  }

  /** The last event of the run raised the bitrate. */
  ghost predicate Upgrades(s: Ladder, events: seq<Event>) {
    events != [] &&
    (var n := |events| - 1;
     var before := After(s, events[..n]);
     && events[n].Loss? && events[n].sessionUp
     && Report(before, events[n].rate, events[n].at).1.Some?
     && Report(before, events[n].rate, events[n].at).1.value.to > before.last)
  }

  lemma QuietExtend(events: seq<Event>, i: nat)
    requires events != [] && QuietSince(events[..|events| - 1], i)
    requires events[|events| - 1].Loss? && events[|events| - 1].rate < 2.0
    ensures QuietSince(events, i) && events[i] == events[..|events| - 1][i]
  {}

  /** Every upgrade goes straight to the top and follows at least 30 s in which all
      reports had less than 2 % loss; `i` is where that stretch starts. */
  lemma UpgradeAfterQuiet(bitrate: nat, floor: int, events: seq<Event>) returns (i: nat)
    requires bitrate > 0 && floor > 0 && Proper(events) && Upgrades(Fresh(bitrate, floor), events)
    ensures var s := After(Fresh(bitrate, floor), events);
            s.last == Max(s.tier, floor)
    ensures QuietSince(events, i) && events[|events| - 1].at - events[i].at >= RECOVERY
  {
    var n := |events| - 1;
    RunGood(bitrate, floor, events[..n]);
    var s := After(Fresh(bitrate, floor), events[..n]);
    UpgradeStep(s, events[n].rate, events[n].at);
    i :| QuietSince(events[..n], i) && events[..n][i].at == s.lowSince.value;
    QuietExtend(events, i);
  }

  /** What a quality switch holds back, exactly: within the next 30 s a report changes
      the bitrate if and only if the new tier is below the floor and low loss had lasted
      30 s.  So it holds back every downgrade and no upgrade. */
  lemma QualityHoldExactly(s: Ladder, bitrate: nat, at: int, loss: real, now: int)
    requires bitrate > 0 && s.floor > 0 && at <= now < at + HYSTERESIS
    ensures Report(ApplyQuality(s, bitrate, at), loss, now).1.Some?
       <==> bitrate < s.floor && loss < 2.0 && s.lowSince.Some? && now - s.lowSince.value >= RECOVERY
  {}
}
