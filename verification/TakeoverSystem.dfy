/** The takeover protocol as a transition system: one server, one agent, two queues. */
module TakeoverSystem {
  import opened Common
  import opened TakeoverSpec

  /** Where the goroutine of one browser connection stands.
      Entered: registered, bound not sent yet.  Reading: bound sent.
      Leaving: unbound sent (or agent gone), entry not deleted yet. */
  datatype Phase = Entered | Reading | Leaving | Finished

  /** What a browser may put on its WebSocket.  The two claims are lifecycle
      messages, which the protocol reserves for the signaling server. */
  datatype BrowserMsg = Signal(body: nat) | AskPreempt(relay: nat) | ClaimBound | ClaimUnbound

  datatype System = System(
    agent: Agent,
    browserSessions: set<SessionId>,
    phases: map<SessionId, Phase>,
    toAgent: seq<ToAgent>,
    toServer: seq<ToServer>,
    linkUp: bool,
    refusals: nat,             // history: bounds refused because of MAX_SESSIONS
    written: seq<Write>)       // history: what the server wrote to browsers

  const Initial := System(IdleAgent, {}, map[], [], [], true, 0, [])

  datatype Step =
    | Connect(id: SessionId)
    | AnnounceBound(id: SessionId)
    | BrowserSend(id: SessionId, msg: BrowserMsg)
    | AnnounceUnbound(id: SessionId)
    | DropEntry(id: SessionId)
    | RelaySend(relayMsg: ToAgent)
    | AgentReceive
    | ServerReceive
    | SessionSend(id: SessionId, body: nat)
    | ForceCloseBegin(id: SessionId)
    | ForceCloseFinish(id: SessionId, text: string)
    | LinkDown(ids: seq<SessionId>)

  predicate InPhase(s: System, id: SessionId, p: Phase) {
    id in s.phases && s.phases[id] == p
  }

  ghost predicate Enabled(s: System, step: Step) {
    match step
    case Connect(id) => s.linkUp && id !in s.phases
    case AnnounceBound(id) => InPhase(s, id, Entered)
    case BrowserSend(id, _) => InPhase(s, id, Reading)
    case AnnounceUnbound(id) => InPhase(s, id, Reading)
    case DropEntry(id) => InPhase(s, id, Leaving)
    case RelaySend(m) => m.RelayPreempt? || m.RelayQuery?
    case AgentReceive => s.toAgent != []
    case ServerReceive => s.toServer != []
    case SessionSend(id, _) => id in s.phases   // a session's id was a connection's first
    case ForceCloseBegin(id) => id in s.agent.sessions
    case ForceCloseFinish(id, _) => id in s.agent.closing
    case LinkDown(ids) =>
      s.linkUp && multiset(ids) == multiset(s.agent.sessions.Keys)
  }

  /** writeAgentWS: without an agent the message goes nowhere. */
  function Send(s: System, m: ToAgent): System {
    if s.linkUp then s.(toAgent := s.toAgent + [m]) else s
  }

  function Emit(s: System, ms: seq<ToServer>): System {
    if s.linkUp then s.(toServer := s.toServer + ms) else s
  }

  function Forwarded(id: SessionId, msg: BrowserMsg): ToAgent {
    match msg
    case Signal(body) => Routed(id, body)
    case AskPreempt(relay) => RelayPreempt(relay)
    case ClaimBound => Bound(id)
    case ClaimUnbound => Unbound(id)
  }

  ghost function Next(s: System, step: Step): System
    requires Enabled(s, step)
  {
    match step
    case Connect(id) =>
      s.(browserSessions := ServerEnter(s.browserSessions, id), phases := s.phases[id := Entered])
    case AnnounceBound(id) => Send(s.(phases := s.phases[id := Reading]), Bound(id))
    case BrowserSend(id, msg) => Send(s, Forwarded(id, msg))
    case AnnounceUnbound(id) => Send(s.(phases := s.phases[id := Leaving]), Unbound(id))
    case DropEntry(id) =>
      s.(browserSessions := ServerLeave(s.browserSessions, id), phases := s.phases[id := Finished])
    case RelaySend(m) => Send(s, m)
    case AgentReceive =>
      var rest := s.(toAgent := s.toAgent[1..]);
      (match Receive(s.agent, s.toAgent[0])
       case Outcome(agent, sent) => Emit(rest.(agent := agent), sent)
       case RefusedBound => rest.(refusals := s.refusals + 1))
    case ServerReceive =>
      s.(toServer := s.toServer[1..],
         browserSessions := ServerRead(s.browserSessions, s.toServer[0]),
         written := s.written + ServerWrites(s.browserSessions, s.toServer[0]))
    case SessionSend(id, body) => Emit(s, [Reply(id, body)])
    case ForceCloseBegin(id) => Emit(s.(agent := ForceBegin(s.agent, id)), [Preempted(id)])
    case ForceCloseFinish(id, text) => s.(agent := ForceFinish(s.agent, id, text))
    case LinkDown(ids) =>
      s.(agent := Shutdown(s.agent, ids), browserSessions := {}, toAgent := [], toServer := [],
         linkUp := false)
  }

  /** The browser was sent its `preempted`. */
  predicate Told(s: System, id: SessionId) {
    Write(id, Preempted(id)) in s.written
  }

  /** A step in which no browser claims a lifecycle message. */
  predicate Honest(step: Step) {
    step.BrowserSend? ==> step.msg.Signal? || step.msg.AskPreempt?
  }

  ghost predicate IsPath(run: seq<System>, steps: seq<Step>) {
    && |run| == |steps| + 1
    && forall i :: 0 <= i < |steps| ==> Enabled(run[i], steps[i]) && run[i + 1] == Next(run[i], steps[i])
  }

  /** `run` starts in the initial state and follows `steps`. */
  ghost predicate IsRun(run: seq<System>, steps: seq<Step>) {
    IsPath(run, steps) && run[0] == Initial
  }

  /** No connection handler and no force-close is half way. */
  predicate Settled(s: System) {
    && s.agent.closing == multiset{}
    && forall id :: id in s.phases ==> s.phases[id] == Reading || s.phases[id] == Finished
  }

  predicate Quiescent(s: System) {
    s.toAgent == [] && s.toServer == [] && Settled(s)
  }

  // ---------------------------------------------------------------------
  // Counting events
  // ---------------------------------------------------------------------

  function Starts(events: seq<Event>, id: SessionId): nat {
    if events == [] then 0
    else
      var n := |events| - 1;
      Starts(events[..n], id) + if events[n] == Started(id) then 1 else 0
  }

  function Stops(events: seq<Event>, id: SessionId): nat {
    if events == [] then 0
    else
      var n := |events| - 1;
      Stops(events[..n], id) + if events[n].Stopped? && events[n].id == id then 1 else 0
  }

  lemma CountAppend(events: seq<Event>, e: Event, id: SessionId)
    ensures Starts(events + [e], id) == Starts(events, id) + if e == Started(id) then 1 else 0
    ensures Stops(events + [e], id)
         == Stops(events, id) + if e.Stopped? && e.id == id then 1 else 0
  {
    assert (events + [e])[..|events|] == events;
  }

  // ---------------------------------------------------------------------
  // Draining
  // ---------------------------------------------------------------------

  lemma ReceiveShrinks(s: System)
    requires s.toAgent != []
    ensures var t := Next(s, AgentReceive);
            3 * |t.toAgent| + |t.toServer| < 3 * |s.toAgent| + |s.toServer|
  {}

  /** Let both sides read everything that is in flight. */
  ghost function Drain(s: System): System
    decreases 3 * |s.toAgent| + |s.toServer|
  {
    if s.toAgent != [] then ReceiveShrinks(s); Drain(Next(s, AgentReceive))
    else if s.toServer != [] then Drain(Next(s, ServerReceive))
    else s
  }

  lemma ReceiveKeepsClosing(a: Agent, m: ToAgent)
    ensures Receive(a, m).Outcome? ==> Receive(a, m).agent.closing == a.closing
  {
    match m
    case Bound(id) => assert Holder(a).Some? ==> Preempt(a, Holder(a).value, Forced).closing == a.closing;
    case _ =>
  }

  lemma AgentReceiveSettled(s: System)
    requires Settled(s) && s.toAgent != []
    ensures Settled(Next(s, AgentReceive))
  {
    ReceiveKeepsClosing(s.agent, s.toAgent[0]);
    var t := Next(s, AgentReceive);
    assert t.phases == s.phases && t.agent.closing == s.agent.closing;
  }

  lemma ServerReceiveSettled(s: System)
    requires Settled(s) && s.toServer != []
    ensures Settled(Next(s, ServerReceive))
  {
    var t := Next(s, ServerReceive);
    assert t.phases == s.phases && t.agent == s.agent;
  }
}
