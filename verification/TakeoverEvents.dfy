/** Session events: what is reported started and stopped, counted over every run. */
module TakeoverEvents {
  import opened Common
  import opened TakeoverSpec
  import opened TakeoverSystem
  import opened Takeover

  predicate Owned(a: Agent, id: SessionId) {
    id in a.sessions && !a.sessions[id]
  }

  // ---------------------------------------------------------------------
  // The account of one session
  // ---------------------------------------------------------------------

  /** What has been reported or noted about the session, less what will answer it: a
      stop for each force-close under way, and one when its holder goes. */
  function Open(a: Agent, id: SessionId): int {
    Starts(a.events, id) + a.overlaps[id] - Stops(a.events, id) - a.closing[id] - if Owned(a, id) then 1 else 0
  }

  /** A start is lost when the same id is bound over its unmarked session, or when a
      force-close ends that finds its session unmarked again. */
  predicate LosesStart(s: System, step: Step, id: SessionId) {
    Owned(s.agent, id) && ((step.AgentReceive? && s.toAgent != [] && s.toAgent[0] == Bound(id))
                           || (step.ForceCloseFinish? && step.id == id))
  }

  lemma PreemptOpen(a: Agent, ousted: SessionId, reason: Reason, id: SessionId)
    requires ousted in a.sessions
    ensures Open(Preempt(a, ousted, reason), id) == Open(a, id)
    ensures Owned(Preempt(a, ousted, reason), id) <==> Owned(a, id) && id != ousted
  {
    var b := Preempt(a, ousted, reason);
    PreemptFields(a, ousted, reason);
    CountAppend(a.events, Stopped(ousted, reason), id);
    assert Owned(b, id) <==> Owned(a, id) && id != ousted;
  }

  lemma AdmitOpen(a: Agent, incoming: SessionId, id: SessionId)
    ensures Open(Admit(a, incoming), id) == Open(a, id) + if id == incoming && Owned(a, id) then 1 else 0
  {
    AdmitFields(a, incoming);
    CountAppend(a.events, Started(incoming), id);
    assert Owned(Admit(a, incoming), id) <==> id == incoming || Owned(a, id);
  }

  lemma BoundOpen(a: Agent, incoming: SessionId, id: SessionId)
    requires SingleOk(a)
    ensures Open(HandleBound(a, incoming).agent, id) == Open(a, id) + if id == incoming && Owned(a, id) then 1 else 0
  {
    BoundOutcome(a, incoming);
    if a.current.Some? && a.current != Some(incoming) {
      PreemptOpen(a, a.current.value, Forced, id);
      AdmitOpen(Preempt(a, a.current.value, Forced), incoming, id);
    } else {
      AdmitOpen(a, incoming, id);
    }
  }

  lemma UnboundOpen(a: Agent, gone: SessionId, id: SessionId)
    ensures Open(HandleUnbound(a, gone), id) == Open(a, id)
  {
    CountAppend(a.events, Stopped(gone, UserUnbound), id);
  }

  lemma ReceiveOpen(a: Agent, m: ToAgent, id: SessionId)
    requires SingleOk(a) && Receive(a, m).Outcome?
    ensures Open(Receive(a, m).agent, id) == Open(a, id) + if m == Bound(id) && Owned(a, id) then 1 else 0
  {
    if m.Bound? {
      BoundOpen(a, m.id, id);
    } else if m.Unbound? {
      UnboundOpen(a, m.id, id);
    } else if m.RelayPreempt? && Holder(a).Some? {
      PreemptOpen(a, Holder(a).value, Forced, id);
    }
  }

  lemma ForceBeginOpen(a: Agent, closed: SessionId, id: SessionId)
    requires closed in a.sessions
    ensures Open(ForceBegin(a, closed), id) == Open(a, id)
  {
    ForceBeginFields(a, closed);
    assert Owned(ForceBegin(a, closed), id) <==> id != closed && Owned(a, id);
  }

  lemma ForceFinishOpen(a: Agent, closed: SessionId, text: string, id: SessionId)
    requires closed in a.closing
    ensures Open(ForceFinish(a, closed, text), id) == Open(a, id) + if id == closed && Owned(a, id) then 1 else 0
  {
    ForceFinishFields(a, closed, text);
    CountAppend(a.events, Stopped(closed, CloseReason(text)), id);
    assert Owned(ForceFinish(a, closed, text), id) <==> id != closed && Owned(a, id);
  }

  lemma ShutdownOpen(a: Agent, ids: seq<SessionId>, id: SessionId)
    requires SingleOk(a) && multiset(ids) == multiset(a.sessions.Keys)
    ensures Open(Shutdown(a, ids), id) == Open(a, id)
  {
    SingletonOrder(a, ids);
    if ids == [] {
      assert a.events + StopEvents(ids) == a.events;
    } else {
      PreemptOpen(a, ids[0], AgentStop, id);
      assert a.sessions - {ids[0]} == map[];
      assert Shutdown(a, ids) == Preempt(a, ids[0], AgentStop);
    }
  }

  lemma StepOpen(s: System, step: Step, id: SessionId)
    requires SingleOk(s.agent) && Enabled(s, step)
    ensures Open(Next(s, step).agent, id) == Open(s.agent, id) + if LosesStart(s, step, id) then 1 else 0
  {
    match step
    case AgentReceive =>
      ReceiveSingle(s.agent, s.toAgent[0]);
      ReceiveOpen(s.agent, s.toAgent[0], id);
    case ForceCloseBegin(closed) => ForceBeginOpen(s.agent, closed, id);
    case ForceCloseFinish(closed, text) => ForceFinishOpen(s.agent, closed, text, id);
    case LinkDown(ids) => ShutdownOpen(s.agent, ids, id);
    case _ =>
  }

  /** How often a start of the session was lost in the first i steps. */
  function Lost(run: seq<System>, steps: seq<Step>, i: nat, id: SessionId): nat
    requires i <= |steps| < |run|
  {
    if i == 0 then 0
    else Lost(run, steps, i - 1, id) + if LosesStart(run[i - 1], steps[i - 1], id) then 1 else 0
  }

  /** The account balances over every run, forged messages included: a session's stops,
      those still to come and its lost starts are together its starts and overlaps. */
  lemma {:induction false} EventsBalance(run: seq<System>, steps: seq<Step>, i: nat, id: SessionId)
    requires IsRun(run, steps) && i <= |steps|
    ensures var a := run[i].agent;
            Stops(a.events, id) + a.closing[id] + (if Owned(a, id) then 1 else 0) + Lost(run, steps, i, id)
            == Starts(a.events, id) + a.overlaps[id]
    decreases i
  {
    if i > 0 {
      EventsBalance(run, steps, i - 1, id);
      SingleSession(run, steps, i - 1);
      assert Enabled(run[i - 1], steps[i - 1]) && run[i] == Next(run[i - 1], steps[i - 1]);
      StepOpen(run[i - 1], steps[i - 1], id);
    }
  }

  /** The stop of a session that nobody is force-closing is reported by the very step
      that removes it, whatever browsers write. */
  lemma StopReportedOnRemoval(run: seq<System>, steps: seq<Step>, i: nat, id: SessionId)
    requires IsRun(run, steps) && i < |steps|
    requires Owned(run[i].agent, id) && id !in run[i + 1].agent.sessions
    ensures Stops(run[i + 1].agent.events, id) == Stops(run[i].agent.events, id) + 1
  {
    var s, step := run[i], steps[i];
    SingleSession(run, steps, i);
    assert Enabled(s, step) && run[i + 1] == Next(s, step);
    StepStops(s, step, id);
  }

  lemma StepStops(s: System, step: Step, id: SessionId)
    requires SingleOk(s.agent) && Enabled(s, step)
    requires Owned(s.agent, id) && id !in Next(s, step).agent.sessions
    ensures Stops(Next(s, step).agent.events, id) == Stops(s.agent.events, id) + 1
  {
    var a := s.agent;
    match step
    case AgentReceive =>
      ReceiveSingle(a, s.toAgent[0]);
      RemovalReported(a, s.toAgent[0], id);
    case ForceCloseFinish(_, text) => CountAppend(a.events, Stopped(id, CloseReason(text)), id);
    case LinkDown(ids) =>
      SingletonOrder(a, ids);
      CountAppend(a.events, Stopped(id, AgentStop), id);
    case _ =>
  }

  lemma RemovalReported(a: Agent, m: ToAgent, id: SessionId)
    requires SingleOk(a) && Owned(a, id)
    requires Receive(a, m).Outcome? && id !in Receive(a, m).agent.sessions
    ensures Stops(Receive(a, m).agent.events, id) == Stops(a.events, id) + 1
  {
    CountAppend(a.events, Stopped(id, Forced), id);
    CountAppend(a.events, Stopped(id, UserUnbound), id);
    if m.Bound? {
      BoundOutcome(a, m.id);
      assert Holder(a) == Some(id);
      CountAppend(a.events + [Stopped(id, Forced)], Started(m.id), id);
    }
  }

  // ---------------------------------------------------------------------
  // Reasons
  // ---------------------------------------------------------------------

  /** The reason that a step gives for a stop it reports. */
  predicate ReasonFits(s: System, step: Step, e: Event) {
    e.Stopped? ==>
      match step
      case AgentReceive =>
        s.toAgent != [] && (if s.toAgent[0].Unbound? then e == Stopped(s.toAgent[0].id, UserUnbound)
                            else e.reason == Forced)
      case ForceCloseFinish(id, text) => e == Stopped(id, if text == "" then Forced else Platform(text))
      case LinkDown(_) => e.reason == AgentStop
      case _ => false
  }

  lemma ReceiveReports(a: Agent, m: ToAgent)
    requires SingleOk(a)
    ensures Receive(a, m).Outcome? && a.events <= Receive(a, m).agent.events
    ensures forall e :: e in Receive(a, m).agent.events[|a.events|..] && e.Stopped? ==>
              if m.Unbound? then e == Stopped(m.id, UserUnbound) else e.reason == Forced
  {
    ReceiveSingle(a, m);
    if m.Bound? {
      BoundOutcome(a, m.id);
      if a.current.Some? && a.current != Some(m.id) {
        assert Receive(a, m).agent.events == a.events + [Stopped(a.current.value, Forced), Started(m.id)];
      }
    }
  }

  lemma ReceiveFits(s: System, k: nat)
    requires SingleOk(s.agent) && s.toAgent != []
    ensures var a, b := s.agent.events, Next(s, AgentReceive).agent.events;
            a <= b && (|a| <= k < |b| ==> ReasonFits(s, AgentReceive, b[k]))
  {
    ReceiveReports(s.agent, s.toAgent[0]);
    var a, b := s.agent.events, Next(s, AgentReceive).agent.events;
    assert |a| <= k < |b| ==> b[k] == b[|a|..][k - |a|];
  }

  lemma OtherFits(s: System, step: Step, k: nat)
    requires SingleOk(s.agent) && Enabled(s, step) && !step.AgentReceive?
    ensures var a, b := s.agent.events, Next(s, step).agent.events;
            a <= b && (|a| <= k < |b| ==> ReasonFits(s, step, b[k]))
  {
    match step
    case ForceCloseBegin(id) => ForceBeginFields(s.agent, id);
    case ForceCloseFinish(id, text) => ForceFinishFields(s.agent, id, text);
    case LinkDown(ids) => SingletonOrder(s.agent, ids);
    case _ =>
  }

  /** Every reported stop carries its reason: the user's for an unbound, forced for a
      takeover, the platform's own or forced for a force-close, the agent's for a lost
      link; events are only ever added. */
  lemma ReasonsExactly(run: seq<System>, steps: seq<Step>, i: nat, k: nat)
    requires IsRun(run, steps) && i < |steps|
    ensures run[i].agent.events <= run[i + 1].agent.events
    ensures |run[i].agent.events| <= k < |run[i + 1].agent.events| ==>
              ReasonFits(run[i], steps[i], run[i + 1].agent.events[k])
  {
    assert Enabled(run[i], steps[i]) && run[i + 1] == Next(run[i], steps[i]);
    SingleSession(run, steps, i);
    if steps[i].AgentReceive? { ReceiveFits(run[i], k); } else { OtherFits(run[i], steps[i], k); }
  }

  // ---------------------------------------------------------------------
  // Exactly once
  // ---------------------------------------------------------------------

  /** No bound is handled for the session once it was started. */
  predicate NoRestart(s: System, step: Step, id: SessionId) {
    step.AgentReceive? && s.toAgent != [] && s.toAgent[0] == Bound(id) ==> Starts(s.agent.events, id) == 0
  }

  ghost predicate StartsOnce(run: seq<System>, steps: seq<Step>, id: SessionId) {
    IsRun(run, steps) && forall i :: 0 <= i < |steps| ==> NoRestart(run[i], steps[i], id)
  }

  /** Browsers that leave the lifecycle messages to the server restart nothing. */
  lemma HonestStartsOnce(run: seq<System>, steps: seq<Step>, id: SessionId)
    requires HonestRun(run, steps)
    ensures StartsOnce(run, steps, id)
  {
    forall i | 0 <= i < |steps| ensures NoRestart(run[i], steps[i], id) {
      RunTidy(run, steps, i);
      assert Enabled(run[i], steps[i]) && TidyFor(run[i], id);
    }
  }

  /** A flag is set exactly while a force-close of that session is under way, and only
      what was started, once, is registered or being closed. */
  ghost predicate MarkedFor(a: Agent, id: SessionId) {
    && (id in a.sessions ==> (a.sessions[id] <==> id in a.closing))
    && (id in a.sessions || id in a.closing ==> Starts(a.events, id) > 0)
    && Starts(a.events, id) <= 1
  }

  lemma ReceiveMarkedFor(s: System, id: SessionId)
    requires SingleOk(s.agent) && MarkedFor(s.agent, id) && s.toAgent != [] && NoRestart(s, AgentReceive, id)
    ensures MarkedFor(Next(s, AgentReceive).agent, id)
  {
    ReceiveMarks(s.agent, s.toAgent[0]);
    StepStarts(s, AgentReceive, id);
  }

  lemma ForceCloseMarkedFor(s: System, step: Step, id: SessionId)
    requires MarkedFor(s.agent, id) && Enabled(s, step) && (step.ForceCloseBegin? || step.ForceCloseFinish?)
    requires Starts(Next(s, step).agent.events, id) == Starts(s.agent.events, id)
    ensures MarkedFor(Next(s, step).agent, id)
  {
    var a := s.agent;
    if step.ForceCloseBegin? {
      ForceBeginFields(a, step.id);
    } else {
      ForceFinishFields(a, step.id, step.text);
    }
  }

  lemma StepMarkedFor(s: System, step: Step, id: SessionId)
    requires SingleOk(s.agent) && MarkedFor(s.agent, id) && Enabled(s, step) && NoRestart(s, step, id)
    ensures MarkedFor(Next(s, step).agent, id)
  {
    if step.AgentReceive? {
      ReceiveMarkedFor(s, id);
    } else {
      StepStarts(s, step, id);
      match step
      case ForceCloseBegin(_) => ForceCloseMarkedFor(s, step, id);
      case ForceCloseFinish(_, _) => ForceCloseMarkedFor(s, step, id);
      case LinkDown(ids) => ShutdownOutcome(s.agent, ids, id);
      case _ => assert Next(s, step).agent == s.agent;
    }
  }

  /** What a handler does to the flags. */
  lemma ReceiveMarks(a: Agent, m: ToAgent)
    requires SingleOk(a)
    ensures var b := Receive(a, m).agent;
            && Receive(a, m).Outcome? && b.closing == a.closing
            && (m.Bound? ==> b.sessions == map[m.id := false])
            && (!m.Bound? ==> forall id :: id in b.sessions ==> id in a.sessions && b.sessions[id] == a.sessions[id])
  {
    ReceiveSingle(a, m);
    if m.Bound? {
      BoundOutcome(a, m.id);
    } else if m.Unbound? {
      UnboundOutcome(a, m.id, m.id);
    } else if m.RelayPreempt? && Holder(a).Some? {
      PreemptOutcome(a, Holder(a).value, Holder(a).value);
    }
  }

  lemma NothingLost(s: System, step: Step, id: SessionId)
    requires MarkedFor(s.agent, id) && Enabled(s, step) && NoRestart(s, step, id)
    ensures !LosesStart(s, step, id)
  {}

  lemma {:induction false} RunMarked(run: seq<System>, steps: seq<Step>, i: nat, id: SessionId)
    requires StartsOnce(run, steps, id) && i <= |steps|
    ensures MarkedFor(run[i].agent, id) && Lost(run, steps, i, id) == 0
    decreases i
  {
    if i > 0 {
      RunMarked(run, steps, i - 1, id);
      SingleSession(run, steps, i - 1);
      assert Enabled(run[i - 1], steps[i - 1]) && run[i] == Next(run[i - 1], steps[i - 1]);
      StepMarkedFor(run[i - 1], steps[i - 1], id);
      NothingLost(run[i - 1], steps[i - 1], id);
    }
  }

  /** Session events: unless it is bound again, a session starts at most once, and once
      it is gone it was reported stopped exactly once if and only if no preemption hit
      it while a force-close of it was already under way.  What is forged for other
      sessions does not matter. */
  lemma ExactlyOnce(run: seq<System>, steps: seq<Step>, i: nat, id: SessionId)
    requires StartsOnce(run, steps, id) && i <= |steps|
    ensures var a := run[i].agent;
            && Starts(a.events, id) <= 1
            && (Starts(a.events, id) == 1 && id !in a.sessions && id !in a.closing ==>
                  (Stops(a.events, id) == 1 <==> id !in a.overlaps))
            && (Owned(a, id) && id !in a.overlaps ==> Stops(a.events, id) == 0)
  {
    RunMarked(run, steps, i, id);
    EventsBalance(run, steps, i, id);
  }

  /** The guard is exact: a step leaves the session at one start at most if and only if
      it does not bind it again. */
  lemma RestartExactly(s: System, step: Step, id: SessionId)
    requires SingleOk(s.agent) && Enabled(s, step) && Starts(s.agent.events, id) <= 1
    ensures Starts(Next(s, step).agent.events, id) <= 1 <==> NoRestart(s, step, id)
  {
    StepStarts(s, step, id);
  }

  /** A browser that claims `bound` for its own session makes it start twice, and stop
      once, with no overlap. */
  lemma ForgedBoundRestarts() returns (run: seq<System>, steps: seq<Step>)
    ensures IsRun(run, steps) && Quiescent(run[|steps|])
    ensures var a := run[|steps|].agent;
            Starts(a.events, 0) == 2 && Stops(a.events, 0) == 1 && a.overlaps == multiset{} && a.sessions == map[]
  {
    run, steps := Restarted();
    var a := run[|steps|].agent;
    run, steps := ExtendRun(run, steps, AnnounceUnbound(0));
    assert run[|steps|].toAgent == [Unbound(0)] && run[|steps|].agent == a;
    CountAppend(a.events, Stopped(0, UserUnbound), 0);
    LeftBehind(a);
    run, steps := ExtendRun(run, steps, AgentReceive);
    assert run[|steps|].agent == HandleUnbound(a, 0);
    run, steps := ExtendRun(run, steps, DropEntry(0));
    assert run[|steps|].phases == map[0 := Finished];
  }

  lemma LeftBehind(a: Agent)
    requires a.sessions == map[0 := false]
    ensures var b := HandleUnbound(a, 0);
            && b.sessions == map[] && b.closing == a.closing && b.overlaps == a.overlaps
            && b.events == a.events + [Stopped(0, UserUnbound)]
  {}

  lemma Restarted() returns (run: seq<System>, steps: seq<Step>)
    ensures IsRun(run, steps)
    ensures var s := run[|steps|];
            && s.agent.sessions == map[0 := false] && s.agent.closing == multiset{} && s.agent.overlaps == multiset{}
            && Starts(s.agent.events, 0) == 2 && Stops(s.agent.events, 0) == 0
            && s.toAgent == [] && s.toServer == [] && s.phases == map[0 := Reading] && s.linkUp
  {
    run, steps := FirstSession();
    run, steps := ExtendRun(run, steps, BrowserSend(0, ClaimBound));
    assert run[|steps|] == Holding.(toAgent := [Bound(0)]);
    BoundOutcome(Holding.agent, 0);
    CountAppend(Holding.agent.events, Started(0), 0);
    assert HandleBound(Holding.agent, 0) == Outcome(Admit(Holding.agent, 0), []);
    run, steps := ExtendRun(run, steps, AgentReceive);
    assert run[|steps|].agent == Admit(Holding.agent, 0);
  }

  /** A new browser that arrives while the platform is force-closing the session
      makes the old session stop twice. */
  lemma OverlapReportsTwice() returns (run: seq<System>, steps: seq<Step>)
    ensures HonestRun(run, steps) && Quiescent(run[|steps|])
    ensures Starts(run[|steps|].agent.events, 0) == 1
    ensures Stops(run[|steps|].agent.events, 0) == 2
  {
    run, steps := TakenOverWhileClosing();
    CountAppend(run[|steps|].agent.events, Stopped(0, Forced), 0);
    run, steps := Extend(run, steps, ForceCloseFinish(0, ""));
    var a := run[|steps|].agent;
    assert a.closing == multiset{};
    run, steps := Extend(run, steps, ServerReceive);
    assert run[|steps|].toServer == [Preempted(0)] && run[|steps|].agent == a;
    run, steps := Extend(run, steps, ServerReceive);
    assert run[|steps|].toServer == [] && run[|steps|].agent == a;
  }

  lemma TakenOverWhileClosing() returns (run: seq<System>, steps: seq<Step>)
    ensures HonestRun(run, steps)
    ensures var s := run[|steps|];
            && s.agent.closing == multiset{0}
            && Starts(s.agent.events, 0) == 1 && Stops(s.agent.events, 0) == 1
            && s.toAgent == [] && s.toServer == [Preempted(0), Preempted(0)]
            && s.phases == map[0 := Reading, 1 := Reading]
  {
    run, steps := FirstSession();
    run, steps := Extend(run, steps, ForceCloseBegin(0));
    var a := run[|steps|].agent;
    assert a.sessions == map[0 := true] && a.closing == multiset{0} && a.events == Holding.agent.events;
    var b := TakenOver(a);
    run, steps := Arrive(run, steps, 1);
  }
}
