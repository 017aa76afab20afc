/** Every run, whatever the browsers write.

  The server forwards any message type, so a browser can claim `bound` or `unbound`
  for itself.  One session at a time, the newest first, holds all the same.  Agreement
  between server and agent holds as long as no claim is handled that takes the device
  from its holder or gives it to a session that lost it; one such claim breaks it.
*/
module TakeoverClaims {
  import opened Common
  import opened TakeoverSpec
  import opened TakeoverSystem
  import opened Takeover

  // ---------------------------------------------------------------------
  // Harmless claims
  // ---------------------------------------------------------------------

  /** What the agent handles for a browser still connected neither takes the device
      from it nor gives it back to one that lost it; a session being force-closed is
      lost anyway. */
  predicate Harmless(s: System, step: Step) {
    step.AgentReceive? && s.toAgent != [] ==>
      match s.toAgent[0]
      case Bound(id) =>
        InPhase(s, id, Reading) && Starts(s.agent.events, id) > 0 && id !in s.agent.closing ==> id in s.agent.sessions
      case Unbound(id) =>
        InPhase(s, id, Reading) && id !in s.agent.closing ==> id !in s.agent.sessions
      case _ => true
  }

  /** The same for one session: what is handled for others does not matter. */
  predicate HarmlessFor(s: System, step: Step, id: SessionId) {
    step.AgentReceive? && s.toAgent != [] && (s.toAgent[0] == Bound(id) || s.toAgent[0] == Unbound(id)) ==>
      Harmless(s, step)
  }

  ghost predicate HarmlessRunFor(run: seq<System>, steps: seq<Step>, id: SessionId) {
    IsRun(run, steps) && forall i :: 0 <= i < |steps| ==> HarmlessFor(run[i], steps[i], id)
  }

  ghost predicate HarmlessRun(run: seq<System>, steps: seq<Step>) {
    IsRun(run, steps) && forall i :: 0 <= i < |steps| ==> Harmless(run[i], steps[i])
  }

  /** Browsers that leave the lifecycle messages to the server do no harm. */
  lemma HonestIsHarmless(run: seq<System>, steps: seq<Step>)
    requires HonestRun(run, steps)
    ensures HarmlessRun(run, steps)
  {
    forall i | 0 <= i < |steps| ensures Harmless(run[i], steps[i]) {
      RunTidy(run, steps, i);
      assert Enabled(run[i], steps[i]);
      var m := if steps[i].AgentReceive? then run[i].toAgent[0] else Bound(0);
      assert m.Bound? || m.Unbound? ==> TidyFor(run[i], m.id);
    }
  }

  /** Without a link nothing is in flight and nobody is connected. */
  predicate Linked(s: System) {
    && SingleOk(s.agent)
    && (!s.linkUp ==> s.toAgent == [] && s.toServer == [] && s.browserSessions == {} && s.agent.sessions == map[])
  }

  lemma StepLinked(s: System, step: Step)
    requires Linked(s) && Enabled(s, step)
    ensures Linked(Next(s, step))
  {
    StepSingle(s, step);
    if step.AgentReceive? { ReceiveSingle(s.agent, s.toAgent[0]); }
    if step.ForceCloseFinish? { assert ForceFinish(s.agent, step.id, step.text).sessions == s.agent.sessions - {step.id}; }
  }

  lemma {:induction false} RunLinked(run: seq<System>, steps: seq<Step>, i: nat)
    requires IsRun(run, steps) && i <= |steps|
    ensures Linked(run[i])
    decreases i
  {
    if i > 0 {
      RunLinked(run, steps, i - 1);
      assert run[i] == Next(run[i - 1], steps[i - 1]);
      StepLinked(run[i - 1], steps[i - 1]);
    }
  }

  /** Every bound of the connection is followed by an unbound. */
  predicate Sealed(q: seq<ToAgent>, id: SessionId) {
    forall i :: 0 <= i < |q| && q[i] == Bound(id) ==> Unbound(id) in q[i..]
  }

  ghost predicate Untouched(s: System, id: SessionId) {
    && Bound(id) !in s.toAgent && Unbound(id) !in s.toAgent && Preempted(id) !in s.toServer
    && id !in s.agent.sessions && id !in s.agent.closing
    && Starts(s.agent.events, id) == 0
  }

  /** What server and agent share about one connection. */
  ghost predicate Shares(s: System, id: SessionId) {
    if id !in s.phases then
      Untouched(s, id) && id !in s.browserSessions
    else match s.phases[id]
    case Entered => Untouched(s, id) && (s.linkUp <==> id in s.browserSessions)
    case Reading =>
      if Starts(s.agent.events, id) == 0 then
        && Preempted(id) !in s.toServer && id !in s.agent.sessions && id !in s.agent.closing
        && (s.linkUp ==> Bound(id) in s.toAgent && id in s.browserSessions)
      else
        (id in s.browserSessions && Preempted(id) !in s.toServer)
        <==> (id in s.agent.sessions && id !in s.agent.closing)
    case _ =>
      && (s.phases[id] == Finished ==> id !in s.browserSessions)
      && Sealed(s.toAgent, id)
      && (id in s.agent.sessions ==> Unbound(id) in s.toAgent)
  }

  ghost predicate Consistent(s: System) {
    Linked(s) && forall id :: Shares(s, id)
  }

  lemma SealedAppend(q: seq<ToAgent>, m: ToAgent, id: SessionId)
    requires Sealed(q, id) && m != Bound(id)
    ensures Sealed(q + [m], id)
  {
    forall i | 0 <= i < |q + [m]| && (q + [m])[i] == Bound(id) ensures Unbound(id) in (q + [m])[i..] {
      assert (q + [m])[i..] == q[i..] + [m];
    }
  }

  lemma SealedLast(q: seq<ToAgent>, id: SessionId)
    ensures Sealed(q + [Unbound(id)], id)
  {
    forall i | 0 <= i < |q + [Unbound(id)]| && (q + [Unbound(id)])[i] == Bound(id)
      ensures Unbound(id) in (q + [Unbound(id)])[i..]
    {
      assert (q + [Unbound(id)])[i..] == q[i..] + [Unbound(id)];
    }
  }

  lemma SealedPop(q: seq<ToAgent>, id: SessionId)
    requires q != [] && Sealed(q, id)
    ensures Sealed(q[1..], id)
    ensures q[0] == Bound(id) ==> Unbound(id) in q[1..]
  {
    forall i | 0 <= i < |q[1..]| && q[1..][i] == Bound(id) ensures Unbound(id) in q[1..][i..] {
      assert q[i + 1] == Bound(id) && q[1..][i..] == q[i + 1..];
    }
    assert q[0..] == q == [q[0]] + q[1..];
  }

  predicate Left(s: System, id: SessionId) {
    InPhase(s, id, Leaving) || InPhase(s, id, Finished)
  }

  lemma SendShares(s: System, m: ToAgent, id: SessionId)
    requires Shares(s, id) && (m == Bound(id) || m == Unbound(id) ==> InPhase(s, id, Reading))
    ensures Shares(Send(s, m), id)
  {
    if Left(s, id) { SealedAppend(s.toAgent, m, id); }
  }

  lemma EmitShares(s: System, m: ToServer, id: SessionId)
    requires Shares(s, id) && m != Preempted(id)
    ensures Shares(Emit(s, [m]), id)
  {}

  lemma AnnounceBoundShares(s: System, jd: SessionId, id: SessionId)
    requires Linked(s) && Shares(s, id) && Enabled(s, AnnounceBound(jd))
    ensures Shares(Next(s, AnnounceBound(jd)), id)
  {
    if Left(s, id) { SealedAppend(s.toAgent, Bound(jd), id); }
  }

  lemma AnnounceUnboundShares(s: System, jd: SessionId, id: SessionId)
    requires Linked(s) && Shares(s, id) && Enabled(s, AnnounceUnbound(jd))
    ensures Shares(Next(s, AnnounceUnbound(jd)), id)
  {
    if jd == id {
      SealedLast(s.toAgent, id);
    } else if Left(s, id) {
      SealedAppend(s.toAgent, Unbound(jd), id);
    }
  }

  lemma TableShares(s: System, step: Step, id: SessionId)
    requires Shares(s, id) && Enabled(s, step) && (step.Connect? || step.DropEntry?)
    ensures Shares(Next(s, step), id)
  {}

  lemma ServerReceiveShares(s: System, id: SessionId)
    requires Shares(s, id) && s.toServer != []
    ensures Shares(Next(s, ServerReceive), id)
  {
    assert s.toServer == [s.toServer[0]] + Next(s, ServerReceive).toServer;
  }

  /** A handler after which the connection has no session, and knows it. */
  lemma OustedShares(s: System, t: System, id: SessionId)
    requires Shares(s, id) && s.toAgent != [] && t.toAgent == s.toAgent[1..] && s.toAgent[0] != Bound(id)
    requires t.phases == s.phases && t.browserSessions == s.browserSessions && t.linkUp == s.linkUp
    requires Preempted(id) in t.toServer <==> Preempted(id) in s.toServer || id in s.agent.sessions
    requires id !in t.agent.sessions && t.agent.closing == s.agent.closing
    requires Starts(t.agent.events, id) == Starts(s.agent.events, id)
    ensures Shares(t, id)
  {
    assert s.toAgent == [s.toAgent[0]] + t.toAgent;
    if Sealed(s.toAgent, id) { SealedPop(s.toAgent, id); }
  }

  /** The connection whose bound was handled. */
  lemma AdmittedShares(s: System, t: System, id: SessionId)
    requires Shares(s, id) && s.toAgent != [] && t.toAgent == s.toAgent[1..] && s.toAgent[0] == Bound(id)
    requires InPhase(s, id, Reading) && Starts(s.agent.events, id) > 0 && id !in s.agent.closing ==> id in s.agent.sessions
    requires t.phases == s.phases && t.browserSessions == s.browserSessions && s.linkUp && t.linkUp
    requires Preempted(id) in t.toServer <==> Preempted(id) in s.toServer
    requires id in t.agent.sessions && t.agent.closing == s.agent.closing
    requires Starts(t.agent.events, id) > 0
    ensures Shares(t, id)
  {
    assert Bound(id) in s.toAgent;
    if id in s.phases && !InPhase(s, id, Entered) && !InPhase(s, id, Reading) {
      SealedPop(s.toAgent, id);
    }
  }

  /** Nothing but the queue's head has gone, for this connection. */
  lemma PoppedShares(s: System, t: System, id: SessionId)
    requires Shares(s, id) && s.toAgent != [] && t.toAgent == s.toAgent[1..] && s.toAgent[0] != Bound(id)
    requires s.toAgent[0] == Unbound(id) ==> id !in t.agent.sessions
    requires t.phases == s.phases && t.browserSessions == s.browserSessions && t.linkUp == s.linkUp
    requires Preempted(id) in t.toServer <==> Preempted(id) in s.toServer
    requires t.agent.closing == s.agent.closing
    requires InPhase(s, id, Reading) && id !in s.agent.closing ==> (id in t.agent.sessions <==> id in s.agent.sessions)
    requires id in t.agent.sessions ==> id in s.agent.sessions
    requires Starts(t.agent.events, id) == Starts(s.agent.events, id)
    ensures Shares(t, id)
  {
    assert s.toAgent == [s.toAgent[0]] + t.toAgent;
    if Sealed(s.toAgent, id) { SealedPop(s.toAgent, id); }
  }

  lemma ReceiveBoundShares(s: System, id: SessionId)
    requires SingleOk(s.agent) && s.linkUp && s.toAgent != [] && s.toAgent[0].Bound?
    requires HarmlessFor(s, AgentReceive, id) && Shares(s, id)
    ensures Shares(Next(s, AgentReceive), id)
  {
    var incoming := s.toAgent[0].id;
    BoundStep(s);
    BoundOutcome(s.agent, incoming);
    BoundStarts(s.agent, incoming, id);
    if id == incoming {
      AdmittedShares(s, Next(s, AgentReceive), id);
    } else {
      OustedShares(s, Next(s, AgentReceive), id);
    }
  }

  lemma UnboundStep(s: System)
    requires s.linkUp && s.toAgent != [] && s.toAgent[0].Unbound?
    ensures Next(s, AgentReceive) == s.(agent := HandleUnbound(s.agent, s.toAgent[0].id), toAgent := s.toAgent[1..])
  {
    assert s.toServer + [] == s.toServer;
  }

  lemma ReceiveUnboundShares(s: System, id: SessionId)
    requires s.linkUp && s.toAgent != [] && s.toAgent[0].Unbound?
    requires HarmlessFor(s, AgentReceive, id) && Shares(s, id)
    ensures Shares(Next(s, AgentReceive), id)
  {
    UnboundStep(s);
    UnboundOutcome(s.agent, s.toAgent[0].id, id);
    PoppedShares(s, Next(s, AgentReceive), id);
  }

  lemma RelayPreemptStep(s: System)
    requires SingleOk(s.agent) && s.linkUp && s.toAgent != [] && s.toAgent[0].RelayPreempt? && s.agent.current.Some?
    ensures var holder := s.agent.current.value;
            Next(s, AgentReceive) == s.(agent := Preempt(s.agent, holder, Forced), toAgent := s.toAgent[1..],
                                        toServer := s.toServer + [Preempted(holder), RelayResponse(s.toAgent[0].relay)])
  {}

  lemma RelayPreemptShares(s: System, id: SessionId)
    requires SingleOk(s.agent) && s.linkUp && s.toAgent != [] && s.toAgent[0].RelayPreempt?
    requires s.agent.current.Some? && Shares(s, id)
    ensures Shares(Next(s, AgentReceive), id)
  {
    RelayPreemptStep(s);
    PreemptOutcome(s.agent, s.agent.current.value, id);
    OustedShares(s, Next(s, AgentReceive), id);
  }

  lemma PassiveShares(s: System, id: SessionId)
    requires s.linkUp && s.toAgent != [] && !s.toAgent[0].Bound? && !s.toAgent[0].Unbound?
    requires s.toAgent[0].RelayPreempt? ==> Holder(s.agent).None?
    requires Shares(s, id)
    ensures Shares(Next(s, AgentReceive), id)
  {
    var sent := Receive(s.agent, s.toAgent[0]).sent;
    var t := s.(toAgent := s.toAgent[1..], toServer := s.toServer + sent);
    assert Next(s, AgentReceive) == t;
    assert Preempted(id) !in sent;
    PoppedShares(s, t, id);
  }

  lemma AgentReceiveShares(s: System, id: SessionId)
    requires Linked(s) && Shares(s, id) && s.toAgent != [] && HarmlessFor(s, AgentReceive, id)
    ensures Shares(Next(s, AgentReceive), id)
  {
    if s.toAgent[0].Bound? { ReceiveBoundShares(s, id); }
    else if s.toAgent[0].Unbound? { ReceiveUnboundShares(s, id); }
    else if s.toAgent[0].RelayPreempt? && s.agent.current.Some? { RelayPreemptShares(s, id); }
    else { PassiveShares(s, id); }
  }

  /** The guard is exact, message by message: handling a session's bound or unbound keeps
      what the two sides share about it if and only if it is harmless. */
  lemma HarmlessExactly(s: System, id: SessionId)
    requires Linked(s) && Shares(s, id) && s.toAgent != [] && (s.toAgent[0] == Bound(id) || s.toAgent[0] == Unbound(id))
    ensures Shares(Next(s, AgentReceive), id) <==> Harmless(s, AgentReceive)
  {
    if Harmless(s, AgentReceive) {
      AgentReceiveShares(s, id);
    } else if s.toAgent[0].Bound? {
      BoundStep(s);
      BoundOutcome(s.agent, id);
      BoundStarts(s.agent, id, id);
    } else {
      UnboundOutcome(s.agent, id, id);
      UnboundStep(s);
    }
  }

  /** A step that leaves a connection and its session as they were. */
  lemma KeptShares(s: System, t: System, id: SessionId)
    requires Shares(s, id)
    requires t.phases == s.phases && t.browserSessions == s.browserSessions && t.linkUp == s.linkUp
    requires t.toAgent == s.toAgent && (Preempted(id) in t.toServer <==> Preempted(id) in s.toServer)
    requires id in t.agent.sessions <==> id in s.agent.sessions
    requires id in t.agent.closing <==> id in s.agent.closing
    requires Starts(t.agent.events, id) == Starts(s.agent.events, id)
    ensures Shares(t, id)
  {}

  /** A step of a force-close of this session. */
  lemma ClosedShares(s: System, t: System, id: SessionId)
    requires Shares(s, id) && (id in s.agent.sessions || id in s.agent.closing)
    requires t.phases == s.phases && t.browserSessions == s.browserSessions && t.linkUp == s.linkUp
    requires t.toAgent == s.toAgent
    requires Preempted(id) in t.toServer || (id in s.agent.closing && Preempted(id) !in s.toServer)
    requires id in t.agent.sessions ==> id in s.agent.sessions && id in t.agent.closing
    requires Starts(t.agent.events, id) == Starts(s.agent.events, id)
    ensures Shares(t, id)
  {}

  lemma ForceBeginShares(s: System, closed: SessionId, id: SessionId)
    requires Linked(s) && Shares(s, id) && closed in s.agent.sessions
    ensures Shares(Next(s, ForceCloseBegin(closed)), id)
  {
    var t := Next(s, ForceCloseBegin(closed));
    ForceBeginFields(s.agent, closed);
    assert t.toServer == s.toServer + [Preempted(closed)];
    if id == closed { ClosedShares(s, t, id); } else { KeptShares(s, t, id); }
  }

  lemma ForceFinishShares(s: System, closed: SessionId, text: string, id: SessionId)
    requires Linked(s) && Shares(s, id) && closed in s.agent.closing
    ensures Shares(Next(s, ForceCloseFinish(closed, text)), id)
  {
    var t := Next(s, ForceCloseFinish(closed, text));
    ForceFinishFields(s.agent, closed, text);
    CountAppend(s.agent.events, Stopped(closed, CloseReason(text)), id);
    if id == closed { ClosedShares(s, t, id); } else { KeptShares(s, t, id); }
  }

  lemma LinkDownShares(s: System, ids: seq<SessionId>, id: SessionId)
    requires Linked(s) && Shares(s, id) && Enabled(s, LinkDown(ids))
    ensures Shares(Next(s, LinkDown(ids)), id)
  {
    ShutdownOutcome(s.agent, ids, id);
  }

  lemma StepShares(s: System, step: Step, id: SessionId)
    requires Linked(s) && Shares(s, id) && Enabled(s, step) && HarmlessFor(s, step, id)
    ensures Shares(Next(s, step), id)
  {
    match step
    case BrowserSend(jd, msg) => SendShares(s, Forwarded(jd, msg), id);
    case RelaySend(m) => SendShares(s, m, id);
    case AgentReceive => AgentReceiveShares(s, id);
    case ServerReceive => ServerReceiveShares(s, id);
    case SessionSend(jd, body) => EmitShares(s, Reply(jd, body), id);
    case ForceCloseBegin(jd) => ForceBeginShares(s, jd, id);
    case ForceCloseFinish(jd, text) => ForceFinishShares(s, jd, text, id);
    case LinkDown(ids) => LinkDownShares(s, ids, id);
    case AnnounceBound(jd) => AnnounceBoundShares(s, jd, id);
    case AnnounceUnbound(jd) => AnnounceUnboundShares(s, jd, id);
    case Connect(_) => TableShares(s, step, id);
    case DropEntry(_) => TableShares(s, step, id);
  }

  /** However the others behave, what is shared about a session lasts while what is
      handled for it is harmless. */
  lemma {:induction false} RunShares(run: seq<System>, steps: seq<Step>, i: nat, id: SessionId)
    requires HarmlessRunFor(run, steps, id) && i <= |steps|
    ensures Linked(run[i]) && Shares(run[i], id)
    decreases i
  {
    if i > 0 {
      RunShares(run, steps, i - 1, id);
      assert run[i] == Next(run[i - 1], steps[i - 1]);
      StepLinked(run[i - 1], steps[i - 1]);
      StepShares(run[i - 1], steps[i - 1], id);
    }
  }

  lemma RunConsistent(run: seq<System>, steps: seq<Step>, i: nat)
    requires HarmlessRun(run, steps) && i <= |steps|
    ensures Consistent(run[i])
  {
    forall id ensures Shares(run[i], id) { RunShares(run, steps, i, id); }
    RunLinked(run, steps, i);
  }

  lemma StepConsistent(s: System, step: Step)
    requires Consistent(s) && Enabled(s, step) && Harmless(s, step)
    ensures Consistent(Next(s, step))
  {
    StepLinked(s, step);
    forall id ensures Shares(Next(s, step), id) {
      assert Shares(s, id);
      StepShares(s, step, id);
    }
  }

  // ---------------------------------------------------------------------
  // Agreement
  // ---------------------------------------------------------------------

  predicate Agree(s: System) {
    s.browserSessions == s.agent.sessions.Keys
  }

  /** When the agent has read everything, what the server will have removed once it has
      read everything is all that separates the two. */
  lemma ReadUp(s: System, id: SessionId)
    requires Linked(s) && Shares(s, id) && Settled(s) && s.toAgent == []
    ensures id in s.agent.sessions <==> id in s.browserSessions && Preempted(id) !in s.toServer
  {}

  /** Agreement about one session: once everything in flight has been handled, the server
      has it in its table exactly when the agent holds it, whatever other browsers
      forged. */
  lemma SessionAgreement(run: seq<System>, steps: seq<Step>, i: nat, id: SessionId)
    requires HarmlessRunFor(run, steps, id) && i <= |steps| && Quiescent(run[i])
    ensures id in run[i].browserSessions <==> id in run[i].agent.sessions
  {
    RunShares(run, steps, i, id);
    ReadUp(run[i], id);
  }

  /** Distributed agreement: once everything in flight has been handled, the server
      and the agent hold the same session, and at most one, unless a harmful claim
      was handled. */
  lemma Agreement(run: seq<System>, steps: seq<Step>, i: nat)
    requires HarmlessRun(run, steps) && i <= |steps| && Quiescent(run[i])
    ensures Agree(run[i]) && |run[i].browserSessions| <= 1
  {
    forall id ensures id in run[i].browserSessions <==> id in run[i].agent.sessions {
      SessionAgreement(run, steps, i, id);
    }
    SingleSession(run, steps, i);
    assert run[i].browserSessions == run[i].agent.sessions.Keys;
  }

  /** Draining handles no harmful message. */
  ghost predicate DrainsHarmless(s: System)
    decreases 3 * |s.toAgent| + |s.toServer|
  {
    if s.toAgent != [] then
      ReceiveShrinks(s);
      Harmless(s, AgentReceive) && DrainsHarmless(Next(s, AgentReceive))
    else s.toServer != [] ==> DrainsHarmless(Next(s, ServerReceive))
  }

  /** Convergence: with no handler half way, reading the messages in flight is all it
      takes to reach agreement, unless one of them is harmful when its turn comes. */
  lemma {:induction false} DrainConverges(s: System)
    requires Consistent(s) && Settled(s) && DrainsHarmless(s)
    ensures Consistent(Drain(s)) && Quiescent(Drain(s)) && Agree(Drain(s))
    decreases 3 * |s.toAgent| + |s.toServer|
  {
    if s.toAgent != [] {
      ReceiveShrinks(s);
      AgentReceiveSettled(s);
      StepConsistent(s, AgentReceive);
      DrainConverges(Next(s, AgentReceive));
    } else if s.toServer != [] {
      ServerReceiveSettled(s);
      StepConsistent(s, ServerReceive);
      DrainConverges(Next(s, ServerReceive));
    } else {
      forall id ensures id in s.browserSessions <==> id in s.agent.sessions { ReadUp(s, id); }
    }
  }

  lemma {:induction false} TidyDrains(s: System)
    requires SingleOk(s.agent) && Tidy(s)
    ensures DrainsHarmless(s)
    decreases 3 * |s.toAgent| + |s.toServer|
  {
    if s.toAgent != [] {
      ReceiveShrinks(s);
      var m := s.toAgent[0];
      assert m.Bound? || m.Unbound? ==> TidyFor(s, m.id);
      StepTidy(s, AgentReceive);
      StepSingle(s, AgentReceive);
      TidyDrains(Next(s, AgentReceive));
    } else if s.toServer != [] {
      StepTidy(s, ServerReceive);
      TidyDrains(Next(s, ServerReceive));
    }
  }

  /** So every honest run converges from every state with no handler half way. */
  lemma HonestConverges(run: seq<System>, steps: seq<Step>, i: nat)
    requires HonestRun(run, steps) && i <= |steps| && Settled(run[i])
    ensures Quiescent(Drain(run[i])) && Agree(Drain(run[i]))
  {
    HonestIsHarmless(run, steps);
    RunConsistent(run, steps, i);
    RunTidy(run, steps, i);
    TidyDrains(run[i]);
    DrainConverges(run[i]);
  }

  /** With nothing left for the agent, draining lets the server remove whom the agent
      preempted, and changes nothing else. */
  lemma {:induction false} DrainServer(s: System)
    requires s.toAgent == []
    ensures var t := Drain(s);
            && t.toAgent == [] && t.toServer == [] && t.agent == s.agent && t.phases == s.phases
            && forall id :: id in t.browserSessions <==> id in s.browserSessions && Preempted(id) !in s.toServer
    decreases |s.toServer|
  {
    if s.toServer != [] {
      DrainServer(Next(s, ServerReceive));
      assert s.toServer == [s.toServer[0]] + s.toServer[1..];
    }
  }

  /** The need, exactly: when one message is left for the agent and it has been handled,
      reading the rest leads to agreement if and only if it was harmless. */
  lemma ClaimDecides(s: System)
    requires Consistent(s) && Settled(s) && |s.toAgent| == 1
    ensures Quiescent(Drain(s))
    ensures Agree(Drain(s)) <==> Harmless(s, AgentReceive)
  {
    var t := Next(s, AgentReceive);
    AgentReceiveSettled(s);
    DrainServer(t);
    assert Drain(s) == Drain(t);
    if Harmless(s, AgentReceive) {
      StepConsistent(s, AgentReceive);
      forall id ensures id in Drain(t).browserSessions <==> id in t.agent.sessions { ReadUp(t, id); }
    } else {
      HarmfulClaim(s);
      assert s.toAgent[0].id in Drain(t).browserSessions <==> s.toAgent[0].id !in t.agent.sessions;
    }
  }

  lemma HarmfulClaim(s: System)
    requires Consistent(s) && Settled(s) && |s.toAgent| == 1 && !Harmless(s, AgentReceive)
    ensures var t, id := Next(s, AgentReceive), s.toAgent[0].id;
            id !in t.agent.sessions <==> id in t.browserSessions && Preempted(id) !in t.toServer
  {
    var id := s.toAgent[0].id;
    assert Shares(s, id);
    if s.toAgent[0].Bound? {
      BoundStep(s);
      BoundOutcome(s.agent, id);
    }
  }

  /** A browser at rest that claims `unbound` leaves the two sides in lasting
      disagreement if and only if it holds the device; otherwise nothing changes. */
  lemma ForgedUnboundExactly(s: System, id: SessionId)
    requires Consistent(s) && Quiescent(s) && s.linkUp && InPhase(s, id, Reading)
    ensures var t := Drain(Next(s, BrowserSend(id, ClaimUnbound)));
            && Quiescent(t)
            && (Agree(t) <==> id !in s.agent.sessions)
            && (id !in s.agent.sessions ==> t == s)
  {
    var u := Next(s, BrowserSend(id, ClaimUnbound));
    assert u.toAgent == [Unbound(id)];
    StepConsistent(s, BrowserSend(id, ClaimUnbound));
    ClaimDecides(u);
    if id !in s.agent.sessions {
      assert Next(u, AgentReceive) == s;
    }
  }

  /** A browser at rest that claims `bound` takes the device back behind the server's
      back, unless it holds it already. */
  lemma ForgedBoundExactly(s: System, id: SessionId)
    requires Consistent(s) && Quiescent(s) && s.linkUp && InPhase(s, id, Reading)
    ensures var t := Drain(Next(s, BrowserSend(id, ClaimBound)));
            && Quiescent(t)
            && t.agent.sessions.Keys == {id}
            && (Agree(t) <==> id in s.agent.sessions)
  {
    var u := Next(s, BrowserSend(id, ClaimBound));
    assert u.toAgent == [Bound(id)];
    StepConsistent(s, BrowserSend(id, ClaimBound));
    ClaimDecides(u);
    assert Shares(s, id);
    BoundStep(u);
    BoundOutcome(u.agent, id);
    DrainServer(Next(u, AgentReceive));
  }

  /** One run in which it happens: the browser loses the device with the link up, and is
      never told. */
  lemma ForgedUnboundBreaksAgreement() returns (run: seq<System>, steps: seq<Step>)
    ensures IsRun(run, steps) && Quiescent(run[|steps|])
    ensures var s := run[|steps|];
            s.browserSessions == {0} && s.agent.sessions == map[] && s.linkUp && s.written == []
  {
    run, steps := FirstSession();
    run, steps := ExtendRun(run, steps, BrowserSend(0, ClaimUnbound));
    assert run[|steps|] == Holding.(toAgent := [Unbound(0)]);
    UnboundStep(run[|steps|]);
    UnboundOutcome(Holding.agent, 0, 0);
    run, steps := ExtendRun(run, steps, AgentReceive);
    assert run[|steps|].toAgent == [] && run[|steps|].agent.sessions == map[];
  }
}
