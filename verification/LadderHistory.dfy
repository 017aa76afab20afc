/** What the bitrate ladder does, told from the loss reports and quality switches alone. */
module LadderHistory {
  import opened Common
  import opened BitrateLadder

  /** The tier selected last. */
  function Tier(bitrate: nat, events: seq<Event>): nat {
    if events == [] then bitrate
    else
      var n := |events| - 1;
      if events[n].Quality? then events[n].bitrate else Tier(bitrate, events[..n])
  }

  /** The bitrate that a loss rate, in percent, calls for. */
  function Table(tier: nat, floor: int, loss: real): int {
    if tier == 0 then 8_000_000
    else
      var share :=
        if loss > 10.0 then tier / 4
        else if loss > 5.0 then tier / 2
        else if loss > 2.0 then tier * 3 / 4
        else tier;
      if share < floor then floor else share
  }

  /** The bitrate in force. */
  function Present(bitrate: nat, floor: int, events: seq<Event>): int
    decreases |events|, 0
  {
    if events == [] then bitrate
    else
      var n := |events| - 1;
      if events[n].Quality? then events[n].bitrate
      else
        var m := Move(bitrate, floor, events[..n], events[n]);
        if m.Some? then m.value else Present(bitrate, floor, events[..n])
  }

  /** When the bitrate was changed last, by a report or a switch. */
  function LastMove(bitrate: nat, floor: int, events: seq<Event>): Option<int>
    decreases |events|, 0
  {
    if events == [] then None
    else
      var n := |events| - 1;
      if events[n].Quality? || Move(bitrate, floor, events[..n], events[n]).Some? then Some(events[n].at)
      else LastMove(bitrate, floor, events[..n])
  }

  /** The first of the reports with loss under 2 % that nothing interrupted: no report
      with more loss, and no change that a report made. */
  function QuietFrom(bitrate: nat, floor: int, events: seq<Event>): Option<int>
    decreases |events|, 0
  {
    if events == [] then None
    else
      var n := |events| - 1;
      if events[n].Quality? || !events[n].sessionUp then QuietFrom(bitrate, floor, events[..n])
      else if events[n].rate >= 2.0 || Move(bitrate, floor, events[..n], events[n]).Some? then None
      else if QuietFrom(bitrate, floor, events[..n]).Some? then QuietFrom(bitrate, floor, events[..n])
      else Some(events[n].at)
  }

  /** The bitrate that a report changes to, if it changes it.
      It goes down to what the table says unless the last change was less than 30 s ago.
      It goes up to what the table says after 30 s of reports under 2 %, this one
      included, or at once from nothing. */
  function Move(bitrate: nat, floor: int, events: seq<Event>, e: Event): Option<int>
    requires e.Loss?
    decreases |events|, 1
  {
    var target := Table(Tier(bitrate, events), floor, e.rate);
    var present := Present(bitrate, floor, events);
    var moved, quiet := LastMove(bitrate, floor, events), QuietFrom(bitrate, floor, events);
    if !e.sessionUp then None
    else if target < present && (moved.None? || e.at - moved.value >= 30 * SECOND) then Some(target)
    else if target > present
            && (present == 0 || (e.rate < 2.0 && quiet.Some? && e.at - quiet.value >= 30 * SECOND)) then Some(target)
    else None
  }

  function Moves(bitrate: nat, floor: int, events: seq<Event>): seq<Change> {
    if events == [] then []
    else
      var n := |events| - 1;
      var e, earlier := events[n], events[..n];
      Moves(bitrate, floor, earlier)
      + if e.Loss? && Move(bitrate, floor, earlier, e).Some?
        then [Change(e.at, Present(bitrate, floor, earlier), Move(bitrate, floor, earlier, e).value)] else []
  }

  ghost predicate Matches(s: Ladder, bitrate: nat, floor: int, events: seq<Event>) {
    && s.tier == Tier(bitrate, events) && s.floor == floor
    && s.last == Present(bitrate, floor, events)
    && s.lastChange == LastMove(bitrate, floor, events)
    && s.lowSince == QuietFrom(bitrate, floor, events)
  }

  lemma ReportMoves(s: Ladder, bitrate: nat, floor: int, events: seq<Event>, e: Event)
    requires Matches(s, bitrate, floor, events) && e.Loss? && e.sessionUp
    ensures Report(s, e.rate, e.at).1
         == match Move(bitrate, floor, events, e)
            case None => None
            case Some(to) => Some(Change(e.at, s.last, to))
  {
    assert BitrateStep(s.tier, s.floor, e.rate) == Table(s.tier, floor, e.rate);
  }

  lemma StepMatches(s: Ladder, bitrate: nat, floor: int, events: seq<Event>, e: Event)
    requires Matches(s, bitrate, floor, events)
    ensures Matches(Step(s, e).0, bitrate, floor, events + [e])
  {
    assert (events + [e])[..|events|] == events;
    if e.Loss? && e.sessionUp { ReportMoves(s, bitrate, floor, events, e); }
  }

  lemma {:induction false} RunMatches(bitrate: nat, floor: int, events: seq<Event>)
    ensures Matches(After(Fresh(bitrate, floor), events), bitrate, floor, events)
  {
    if events != [] {
      var n := |events| - 1;
      RunMatches(bitrate, floor, events[..n]);
      StepMatches(After(Fresh(bitrate, floor), events[..n]), bitrate, floor, events[..n], events[n]);
      assert events[..n] + [events[n]] == events;
    }
  }

  /** The ladder changes the bitrate exactly when and to what the events call for, over
      every run. */
  lemma {:induction false} HistoryDecides(bitrate: nat, floor: int, events: seq<Event>)
    ensures Changes(Fresh(bitrate, floor), events) == Moves(bitrate, floor, events)
    ensures After(Fresh(bitrate, floor), events).last == Present(bitrate, floor, events)
  {
    RunMatches(bitrate, floor, events);
    if events != [] {
      var n := |events| - 1;
      HistoryDecides(bitrate, floor, events[..n]);
      RunMatches(bitrate, floor, events[..n]);
      if events[n].Loss? && events[n].sessionUp {
        ReportMoves(After(Fresh(bitrate, floor), events[..n]), bitrate, floor, events[..n], events[n]);
      }
    }
  }

  /** Loss lowers the bitrate, exactly: a report with more than 2 % loss that reaches a
      running session lowers it if and only if the table's bitrate for that loss is below
      the present one and no change or switch was made in the last 30 s. */
  lemma LowersExactly(bitrate: nat, floor: int, events: seq<Event>, loss: real, now: int)
    requires loss > 2.0
    ensures var all := events + [Loss(now, loss, true)];
            var present, target := Present(bitrate, floor, events), Table(Tier(bitrate, events), floor, loss);
            var moved := LastMove(bitrate, floor, events);
            After(Fresh(bitrate, floor), all).last < After(Fresh(bitrate, floor), events).last
            <==> target < present && (moved.None? || now - moved.value >= 30 * SECOND)
  {
    var all := events + [Loss(now, loss, true)];
    assert all[..|events|] == events;
    HistoryDecides(bitrate, floor, events);
    HistoryDecides(bitrate, floor, all);
  }

  /** Quiet raises it, exactly: a report raises the bitrate if and only if the table's is
      above the present one and reports had been under 2 % for 30 s, or nothing was set. */
  lemma RaisesExactly(bitrate: nat, floor: int, events: seq<Event>, loss: real, now: int)
    ensures var all := events + [Loss(now, loss, true)];
            var present, target := Present(bitrate, floor, events), Table(Tier(bitrate, events), floor, loss);
            var quiet := QuietFrom(bitrate, floor, events);
            After(Fresh(bitrate, floor), all).last > After(Fresh(bitrate, floor), events).last
            <==> target > present
                 && (present == 0 || (loss < 2.0 && quiet.Some? && now - quiet.value >= 30 * SECOND))
  {
    var all := events + [Loss(now, loss, true)];
    assert all[..|events|] == events;
    HistoryDecides(bitrate, floor, events);
    HistoryDecides(bitrate, floor, all);
  }
}
