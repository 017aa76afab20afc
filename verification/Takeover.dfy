/** What the agent's handlers do, and what holds of every run: one session at a time,
    the newest first.  Also the runs in which browsers leave the lifecycle messages to
    the server. */
module Takeover {
  import opened Common
  import opened TakeoverSpec
  import opened TakeoverSystem

  // ---------------------------------------------------------------------
  // Agent handlers
  // ---------------------------------------------------------------------

  /** `sessions` is empty or exactly {currentSessionID}. */
  predicate SingleOk(a: Agent) {
    a.sessions.Keys == if a.current.Some? then {a.current.value} else {}
  }

  lemma AtMostOne(a: Agent)
    requires SingleOk(a)
    ensures |a.sessions| <= 1
  {
    assert |a.sessions| == |a.sessions.Keys|;
  }

  lemma PreemptFields(a: Agent, ousted: SessionId, reason: Reason)
    ensures var b := Preempt(a, ousted, reason);
            && b.sessions == a.sessions - {ousted} && b.closing == a.closing
            && b.overlaps == (if ousted in a.sessions && a.sessions[ousted] then a.overlaps + multiset{ousted} else a.overlaps)
            && b.events == a.events + [Stopped(ousted, reason)]
  {}

  /** Whoever else held the device is preempted and the newcomer holds it. */
  lemma BoundOutcome(a: Agent, incoming: SessionId)
    requires SingleOk(a)
    ensures var o := HandleBound(a, incoming);
            && o.Outcome?
            && o.agent.sessions == map[incoming := false]
            && o.agent.current == Some(incoming)
            && o.agent.closing == a.closing
            && o.sent == if a.current.Some? && a.current != Some(incoming) then [Preempted(a.current.value)] else []
  {
    AtMostOne(a);
    if a.current.Some? && a.current != Some(incoming) {
      assert Holder(a) == a.current;
      var b := Preempt(a, a.current.value, Forced);
      assert b.sessions == map[] && b.closing == a.closing;
      assert HandleBound(a, incoming).agent == Admit(b, incoming);
    } else {
      assert a.sessions[incoming := false] == map[incoming := false];
      assert HandleBound(a, incoming).agent == Admit(a, incoming);
    }
  }

  /** What handling a bound does to the system. */
  lemma BoundStep(s: System)
    requires SingleOk(s.agent) && s.linkUp && s.toAgent != [] && s.toAgent[0].Bound?
    ensures var t, o := Next(s, AgentReceive), HandleBound(s.agent, s.toAgent[0].id);
            && o.Outcome?
            && t == s.(agent := o.agent, toAgent := s.toAgent[1..], toServer := s.toServer + o.sent)
  {
    BoundOutcome(s.agent, s.toAgent[0].id);
  }

  lemma BoundStarts(a: Agent, incoming: SessionId, id: SessionId)
    requires SingleOk(a)
    ensures Starts(HandleBound(a, incoming).agent.events, id) == Starts(a.events, id) + if id == incoming then 1 else 0
  {
    BoundOutcome(a, incoming);
    if a.current.Some? && a.current != Some(incoming) {
      var b := Preempt(a, a.current.value, Forced);
      PreemptFields(a, a.current.value, Forced);
      CountAppend(a.events, Stopped(a.current.value, Forced), id);
      CountAppend(b.events, Started(incoming), id);
      assert HandleBound(a, incoming).agent == Admit(b, incoming);
    } else {
      CountAppend(a.events, Started(incoming), id);
      assert HandleBound(a, incoming).agent == Admit(a, incoming);
    }
  }

  lemma UnboundOutcome(a: Agent, gone: SessionId, id: SessionId)
    ensures var b := HandleUnbound(a, gone);
            && b.sessions == a.sessions - {gone} && b.closing == a.closing
            && Starts(b.events, id) == Starts(a.events, id)
  {
    CountAppend(a.events, Stopped(gone, UserUnbound), id);
    assert gone !in a.sessions ==> a.sessions - {gone} == a.sessions;
  }

  lemma PreemptOutcome(a: Agent, ousted: SessionId, id: SessionId)
    ensures var b := Preempt(a, ousted, Forced);
            && b.sessions == a.sessions - {ousted} && b.closing == a.closing
            && Starts(b.events, id) == Starts(a.events, id)
  {
    PreemptFields(a, ousted, Forced);
    CountAppend(a.events, Stopped(ousted, Forced), id);
  }

  lemma ForceBeginFields(a: Agent, id: SessionId)
    requires id in a.sessions
    ensures var b := ForceBegin(a, id);
            && b.sessions == a.sessions[id := true] && b.current == a.current
            && b.closing == a.closing + multiset{id} && b.events == a.events
            && b.overlaps == (if a.sessions[id] then a.overlaps + multiset{id} else a.overlaps)
  {}

  lemma ForceFinishFields(a: Agent, id: SessionId, text: string)
    requires id in a.closing
    ensures var b := ForceFinish(a, id, text);
            && b.sessions == a.sessions - {id} && b.closing == a.closing - multiset{id}
            && b.overlaps == a.overlaps && b.events == a.events + [Stopped(id, CloseReason(text))]
  {}

  lemma AdmitFields(a: Agent, id: SessionId)
    ensures var b := Admit(a, id);
            && b.sessions == a.sessions[id := false] && b.closing == a.closing
            && b.overlaps == a.overlaps && b.events == a.events + [Started(id)]
  {}

  /** Walking the session map visits the current session, or nothing. */
  lemma SingletonOrder(a: Agent, ids: seq<SessionId>)
    requires SingleOk(a) && multiset(ids) == multiset(a.sessions.Keys)
    ensures ids == if a.current.Some? then [a.current.value] else []
    ensures ids != [] ==> StopEvents(ids) == [Stopped(ids[0], AgentStop)]
    ensures NoteOverlaps(a, ids) == if ids == [] then a else NoteOverlap(a, ids[0])
  {
    AtMostOne(a);
    assert |ids| == |multiset(ids)| == |a.sessions.Keys|;
    if ids != [] {
      assert ids[0] in multiset(ids);
      assert ids[..0] == [];
    }
  }

  lemma ShutdownOutcome(a: Agent, ids: seq<SessionId>, id: SessionId)
    requires SingleOk(a) && multiset(ids) == multiset(a.sessions.Keys)
    ensures var b := Shutdown(a, ids);
            && b.sessions == map[] && b.closing == a.closing
            && Starts(b.events, id) == Starts(a.events, id)
  {
    SingletonOrder(a, ids);
    if ids == [] {
      assert a.events + StopEvents(ids) == a.events;
    } else {
      CountAppend(a.events, Stopped(ids[0], AgentStop), id);
    }
  }

  // ---------------------------------------------------------------------
  // One session at a time
  // ---------------------------------------------------------------------

  lemma ReceiveSingle(a: Agent, m: ToAgent)
    requires SingleOk(a)
    ensures Receive(a, m).Outcome? && SingleOk(Receive(a, m).agent)
  {
    if m.Bound? {
      BoundOutcome(a, m.id);
    }
  }

  lemma ForceFinishSingle(a: Agent, id: SessionId, text: string)
    requires SingleOk(a) && id in a.closing
    ensures SingleOk(ForceFinish(a, id, text))
  {
    assert ForceFinish(a, id, text).sessions == a.sessions - {id};
  }

  lemma StepSingle(s: System, step: Step)
    requires SingleOk(s.agent) && Enabled(s, step)
    ensures SingleOk(Next(s, step).agent) && Next(s, step).refusals == s.refusals
  {
    match step
    case AgentReceive => ReceiveSingle(s.agent, s.toAgent[0]);
    case ForceCloseBegin(id) => assert ForceBegin(s.agent, id).sessions.Keys == s.agent.sessions.Keys;
    case ForceCloseFinish(id, text) => ForceFinishSingle(s.agent, id, text);
    case LinkDown(ids) => assert Shutdown(s.agent, ids).sessions == map[];
    case _ => assert Next(s, step).agent == s.agent;
  }

  /** At every moment the agent holds nothing or exactly the current session, so the
      session limit never refuses anybody. */
  lemma {:induction false} SingleSession(run: seq<System>, steps: seq<Step>, i: nat)
    requires IsRun(run, steps) && i <= |steps|
    ensures var a := run[i].agent;
            a.sessions.Keys == if a.current.Some? then {a.current.value} else {}
    ensures run[i].refusals == 0
    decreases i
  {
    if i > 0 {
      SingleSession(run, steps, i - 1);
      assert Enabled(run[i - 1], steps[i - 1]) && run[i] == Next(run[i - 1], steps[i - 1]);
      StepSingle(run[i - 1], steps[i - 1]);
    }
  }

  /** A session is started where its bound is handled, and nowhere else. */
  lemma StepStarts(s: System, step: Step, id: SessionId)
    requires SingleOk(s.agent) && Enabled(s, step)
    ensures Starts(Next(s, step).agent.events, id)
         == Starts(s.agent.events, id) + if step.AgentReceive? && s.toAgent[0] == Bound(id) then 1 else 0
  {
    if step.AgentReceive? {
      ReceiveStarts(s.agent, s.toAgent[0], id);
      ReceiveSingle(s.agent, s.toAgent[0]);
    } else if step.ForceCloseFinish? {
      CountAppend(s.agent.events, Stopped(step.id, CloseReason(step.text)), id);
    } else if step.LinkDown? {
      ShutdownOutcome(s.agent, step.ids, id);
    }
  }

  lemma ReceiveStarts(a: Agent, m: ToAgent, id: SessionId)
    requires SingleOk(a) && Receive(a, m).Outcome?
    ensures Starts(Receive(a, m).agent.events, id) == Starts(a.events, id) + if m == Bound(id) then 1 else 0
  {
    if m.Bound? {
      BoundStarts(a, m.id, id);
    } else if m.Unbound? {
      UnboundOutcome(a, m.id, id);
    } else if m.RelayPreempt? && Holder(a).Some? {
      PreemptOutcome(a, Holder(a).value, id);
    }
  }

  function LastStarted(events: seq<Event>): Option<SessionId> {
    if events == [] then None
    else
      var n := |events| - 1;
      if events[n].Started? then Some(events[n].id) else LastStarted(events[..n])
  }

  ghost predicate Newest(a: Agent) {
    a.current.Some? ==> LastStarted(a.events) == a.current
  }

  lemma LastStartedAppend(events: seq<Event>, e: Event)
    ensures LastStarted(events + [e]) == if e.Started? then Some(e.id) else LastStarted(events)
  {
    assert (events + [e])[..|events|] == events;
  }

  lemma ReceiveNewest(a: Agent, m: ToAgent)
    requires Newest(a)
    ensures Receive(a, m).Outcome? ==> Newest(Receive(a, m).agent)
  {
    if Holder(a).Some? { LastStartedAppend(a.events, Stopped(Holder(a).value, Forced)); }
    if m.Bound? {
      var kept := if Holder(a).Some? && Holder(a) != Some(m.id) then Preempt(a, Holder(a).value, Forced) else a;
      LastStartedAppend(kept.events, Started(m.id));
    } else if m.Unbound? {
      LastStartedAppend(a.events, Stopped(m.id, UserUnbound));
    }
  }

  lemma StepNewest(s: System, step: Step)
    requires Newest(s.agent) && Enabled(s, step)
    ensures Newest(Next(s, step).agent)
  {
    if step.AgentReceive? {
      ReceiveNewest(s.agent, s.toAgent[0]);
    } else if step.ForceCloseFinish? {
      LastStartedAppend(s.agent.events, Stopped(step.id, CloseReason(step.text)));
    }
  }

  /** Takeover: whoever holds the device is the session that started last. */
  lemma {:induction false} NewestHolds(run: seq<System>, steps: seq<Step>, i: nat)
    requires IsRun(run, steps) && i <= |steps|
    ensures run[i].agent.current.Some? ==> LastStarted(run[i].agent.events) == run[i].agent.current
    decreases i
  {
    if i > 0 {
      NewestHolds(run, steps, i - 1);
      var s, step := run[i - 1], steps[i - 1];
      assert Enabled(s, step) && run[i] == Next(s, step);
      StepNewest(s, step);
    }
  }

  // ---------------------------------------------------------------------
  // Honest runs
  // ---------------------------------------------------------------------

  ghost predicate HonestRun(run: seq<System>, steps: seq<Step>) {
    IsRun(run, steps) && forall i :: 0 <= i < |steps| ==> Honest(steps[i])
  }

  /** The server sends a connection's bound once, and its unbound when it has left. */
  ghost predicate TidyFor(s: System, id: SessionId) {
    && multiset(s.toAgent)[Bound(id)] <= 1
    && (Bound(id) in s.toAgent ==>
          id in s.phases && s.phases[id] != Entered && Starts(s.agent.events, id) == 0)
    && (Unbound(id) in s.toAgent ==> InPhase(s, id, Leaving) || InPhase(s, id, Finished))
    && (id !in s.phases || s.phases[id] == Entered ==> Starts(s.agent.events, id) == 0)
  }

  ghost predicate Tidy(s: System) {
    forall id :: TidyFor(s, id)
  }

  lemma SendTidyFor(s: System, m: ToAgent, id: SessionId)
    requires TidyFor(s, id)
    requires m == Bound(id) ==> InPhase(s, id, Reading) && Bound(id) !in s.toAgent && Starts(s.agent.events, id) == 0
    requires m == Unbound(id) ==> InPhase(s, id, Leaving)
    ensures TidyFor(Send(s, m), id)
  {}

  lemma PopTidyFor(s: System, t: System, id: SessionId)
    requires TidyFor(s, id) && s.toAgent != [] && t.toAgent == s.toAgent[1..] && t.phases == s.phases
    requires Starts(t.agent.events, id) == Starts(s.agent.events, id) + if s.toAgent[0] == Bound(id) then 1 else 0
    ensures TidyFor(t, id)
  {
    assert s.toAgent == [s.toAgent[0]] + t.toAgent;
    assert multiset(s.toAgent) == multiset{s.toAgent[0]} + multiset(t.toAgent);
    assert Bound(id) in t.toAgent <==> multiset(t.toAgent)[Bound(id)] > 0;
  }

  lemma ReceiveTidyFor(s: System, id: SessionId)
    requires SingleOk(s.agent) && TidyFor(s, id) && s.toAgent != []
    ensures TidyFor(Next(s, AgentReceive), id)
  {
    ReceiveSingle(s.agent, s.toAgent[0]);
    StepStarts(s, AgentReceive, id);
    PopTidyFor(s, Next(s, AgentReceive), id);
  }

  /** A step that sends the agent nothing. */
  lemma KeptTidyFor(s: System, t: System, id: SessionId)
    requires TidyFor(s, id) && (t.toAgent == s.toAgent || t.toAgent == [])
    requires Starts(t.agent.events, id) == Starts(s.agent.events, id)
    requires t.phases == s.phases || (id !in s.phases && InPhase(t, id, Entered))
             || (InPhase(s, id, Leaving) && InPhase(t, id, Finished))
             || ((id in t.phases <==> id in s.phases) && (id in s.phases ==> t.phases[id] == s.phases[id]))
    ensures TidyFor(t, id)
  {}

  lemma StepTidyFor(s: System, step: Step, id: SessionId)
    requires SingleOk(s.agent) && TidyFor(s, id) && Enabled(s, step) && Honest(step)
    ensures TidyFor(Next(s, step), id)
  {
    match step
    case AgentReceive => ReceiveTidyFor(s, id);
    case AnnounceBound(jd) => SendTidyFor(s.(phases := s.phases[jd := Reading]), Bound(jd), id);
    case AnnounceUnbound(jd) => SendTidyFor(s.(phases := s.phases[jd := Leaving]), Unbound(jd), id);
    case BrowserSend(jd, msg) => SendTidyFor(s, Forwarded(jd, msg), id);
    case RelaySend(m) => SendTidyFor(s, m, id);
    case _ =>
      StepStarts(s, step, id);
      KeptTidyFor(s, Next(s, step), id);
  }

  lemma StepTidy(s: System, step: Step)
    requires SingleOk(s.agent) && Tidy(s) && Enabled(s, step) && Honest(step)
    ensures Tidy(Next(s, step))
  {
    forall id ensures TidyFor(Next(s, step), id) {
      assert TidyFor(s, id);
      StepTidyFor(s, step, id);
    }
  }

  lemma {:induction false} RunTidy(run: seq<System>, steps: seq<Step>, i: nat)
    requires HonestRun(run, steps) && i <= |steps|
    ensures Tidy(run[i])
    decreases i
  {
    if i > 0 {
      RunTidy(run, steps, i - 1);
      SingleSession(run, steps, i - 1);
      assert run[i] == Next(run[i - 1], steps[i - 1]);
      StepTidy(run[i - 1], steps[i - 1]);
    }
  }

  // ---------------------------------------------------------------------
  // Building runs
  // ---------------------------------------------------------------------

  lemma ExtendRun(run: seq<System>, steps: seq<Step>, step: Step) returns (run2: seq<System>, steps2: seq<Step>)
    requires IsRun(run, steps) && Enabled(run[|steps|], step)
    ensures run2 == run + [Next(run[|steps|], step)] && steps2 == steps + [step]
    ensures IsRun(run2, steps2)
  {
    run2, steps2 := run + [Next(run[|steps|], step)], steps + [step];
  }

  lemma Extend(run: seq<System>, steps: seq<Step>, step: Step) returns (run2: seq<System>, steps2: seq<Step>)
    requires HonestRun(run, steps) && Enabled(run[|steps|], step) && Honest(step)
    ensures run2 == run + [Next(run[|steps|], step)] && steps2 == steps + [step]
    ensures HonestRun(run2, steps2)
  {
    run2, steps2 := run + [Next(run[|steps|], step)], steps + [step];
  }

  /** A browser connects and its bound reaches the agent. */
  lemma Arrive(run: seq<System>, steps: seq<Step>, id: SessionId) returns (run2: seq<System>, steps2: seq<Step>)
    requires HonestRun(run, steps)
    requires var s := run[|steps|];
             s.linkUp && s.toAgent == [] && id !in s.phases && SingleOk(s.agent) && id !in s.agent.sessions
    ensures HonestRun(run2, steps2) && |steps2| == |steps| + 3
    ensures var s, o := run[|steps|], HandleBound(run[|steps|].agent, id);
            && o.Outcome?
            && run2[|steps2|] == s.(agent := o.agent, browserSessions := s.browserSessions + {id},
                                    phases := s.phases[id := Reading], toServer := s.toServer + o.sent)
  {
    var s := run[|steps|];
    BoundOutcome(s.agent, id);
    run2, steps2 := Extend(run, steps, Connect(id));
    run2, steps2 := Extend(run2, steps2, AnnounceBound(id));
    assert run2[|steps2|] == s.(browserSessions := s.browserSessions + {id}, phases := s.phases[id := Reading],
                                toAgent := [Bound(id)]);
    run2, steps2 := Extend(run2, steps2, AgentReceive);
  }

  /** The first browser holds the device. */
  const Holding := System(Agent(map[0 := false], Some(0), multiset{}, [Started(0)], multiset{}),
                          {0}, map[0 := Reading], [], [], true, 0, [])

  lemma FirstSession() returns (run: seq<System>, steps: seq<Step>)
    ensures HonestRun(run, steps) && run[|steps|] == Holding
    ensures Starts(Holding.agent.events, 0) == 1 && Stops(Holding.agent.events, 0) == 0
  {
    assert HonestRun([Initial], []);
    run, steps := Arrive([Initial], [], 0);
    assert HandleBound(IdleAgent, 0) == Outcome(Holding.agent, []);
    CountAppend([], Started(0), 0);
    assert [] + [Started(0)] == Holding.agent.events;
  }

  /** A second browser takes over from the first. */
  lemma TakenOver(a: Agent) returns (b: Agent)
    requires a.current == Some(0) && a.sessions.Keys == {0}
    ensures HandleBound(a, 1) == Outcome(b, [Preempted(0)])
    ensures b.sessions == map[1 := false] && b.closing == a.closing
    ensures Starts(b.events, 0) == Starts(a.events, 0) && Stops(b.events, 0) == Stops(a.events, 0) + 1
  {
    BoundOutcome(a, 1);
    assert Holder(a) == Some(0);
    b := HandleBound(a, 1).agent;
    PreemptFields(a, 0, Forced);
    var e := Preempt(a, 0, Forced).events;
    assert b.events == e + [Started(1)];
    CountAppend(a.events, Stopped(0, Forced), 0);
    CountAppend(e, Started(1), 0);
  }
}
