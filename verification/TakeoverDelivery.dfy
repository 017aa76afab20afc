/** Messages between a browser and its session, and relay answers: what is sent is read
    once, in order, and reaches the one it is for. */
module TakeoverDelivery {
  import opened Common
  import opened TakeoverSpec
  import opened TakeoverSystem
  import opened Takeover
  import opened TakeoverClaims

  // ---------------------------------------------------------------------
  // From a session to its browser
  // ---------------------------------------------------------------------

  /** The replies to a browser in a queue. */
  function RepliesIn(q: seq<ToServer>, id: SessionId): seq<nat> {
    if q == [] then []
    else
      var n := |q| - 1;
      RepliesIn(q[..n], id) + if q[n].Reply? && q[n].id == id then [q[n].body] else []
  }

  /** The replies written to a browser's socket. */
  function RepliesGot(w: seq<Write>, id: SessionId): seq<nat> {
    if w == [] then []
    else
      var n := |w| - 1;
      RepliesGot(w[..n], id) + if w[n].to == id && w[n].m.Reply? then [w[n].m.body] else []
  }

  /** The replies that a session sent in the first i steps, while the link was up. */
  function RepliesSent(run: seq<System>, steps: seq<Step>, i: nat, id: SessionId): seq<nat>
    requires i <= |steps| < |run|
  {
    if i == 0 then []
    else
      RepliesSent(run, steps, i - 1, id)
      + if steps[i - 1].SessionSend? && steps[i - 1].id == id && run[i - 1].linkUp then [steps[i - 1].body] else []
  }

  lemma {:induction false} RepliesConcat(a: seq<ToServer>, b: seq<ToServer>, id: SessionId)
    ensures RepliesIn(a + b, id) == RepliesIn(a, id) + RepliesIn(b, id)
    decreases |b|
  {
    if b == [] {
      assert a + b == a;
    } else {
      var n := |b| - 1;
      RepliesConcat(a, b[..n], id);
      assert (a + b)[..|a + b| - 1] == a + b[..n];
    }
  }

  lemma GotAppend(w: seq<Write>, x: Write, id: SessionId)
    ensures RepliesGot(w + [x], id) == RepliesGot(w, id) + if x.to == id && x.m.Reply? then [x.m.body] else []
  {
    assert (w + [x])[..|w|] == w;
  }

  lemma {:induction false} NoReplies(q: seq<ToServer>, id: SessionId)
    requires forall m :: m in q ==> !m.Reply?
    ensures RepliesIn(q, id) == []
  {
    if q != [] { NoReplies(q[..|q| - 1], id); }
  }

  /** What the agent itself emits is never a reply of a session. */
  lemma HandlersSendNoReplies(a: Agent, m: ToAgent, id: SessionId)
    requires Receive(a, m).Outcome?
    ensures RepliesIn(Receive(a, m).sent, id) == []
  {
    NoReplies(Receive(a, m).sent, id);
  }

  /** What a connection has been written, what is on the way and what was sent. */
  ghost predicate Delivered(s: System, sent: seq<nat>, id: SessionId) {
    && RepliesGot(s.written, id) <= sent
    && (id in s.browserSessions ==> id in s.phases && RepliesGot(s.written, id) + RepliesIn(s.toServer, id) == sent)
    && (id !in s.phases ==> sent == [] && RepliesIn(s.toServer, id) == [])
  }

  /** The queue grows by messages that are no replies to this browser. */
  lemma EmitDelivered(s: System, t: System, ms: seq<ToServer>, sent: seq<nat>, id: SessionId)
    requires Delivered(s, sent, id) && RepliesIn(ms, id) == []
    requires t.toServer == s.toServer + ms && t.written == s.written
    requires t.browserSessions == s.browserSessions && t.phases == s.phases
    ensures Delivered(t, sent, id)
  {
    RepliesConcat(s.toServer, ms, id);
  }

  lemma ReceiveDelivered(s: System, sent: seq<nat>, id: SessionId)
    requires Linked(s) && Delivered(s, sent, id) && s.toAgent != []
    ensures Delivered(Next(s, AgentReceive), sent, id)
  {
    ReceiveSingle(s.agent, s.toAgent[0]);
    HandlersSendNoReplies(s.agent, s.toAgent[0], id);
    var o := Receive(s.agent, s.toAgent[0]);
    EmitDelivered(s, Next(s, AgentReceive), o.sent, sent, id);
  }

  lemma SessionSendDelivered(s: System, jd: SessionId, body: nat, sent: seq<nat>, id: SessionId)
    requires Linked(s) && Delivered(s, sent, id) && Enabled(s, SessionSend(jd, body))
    ensures Delivered(Next(s, SessionSend(jd, body)), sent + if s.linkUp && jd == id then [body] else [], id)
  {
    RepliesConcat(s.toServer, [Reply(jd, body)], id);
    assert [Reply(jd, body)][..0] == [];
    assert RepliesIn([Reply(jd, body)], id) == if jd == id then [body] else [];
    assert sent + [] == sent;
  }

  /** Taking the first of what is on the way. */
  lemma Take<T>(got: seq<T>, first: seq<T>, rest: seq<T>)
    ensures (got + first) + rest == got + (first + rest)
  {}

  lemma PopReplies(q: seq<ToServer>, id: SessionId)
    requires q != []
    ensures RepliesIn(q, id) == (if q[0].Reply? && q[0].id == id then [q[0].body] else []) + RepliesIn(q[1..], id)
  {
    assert [q[0]][..0] == [];
    RepliesConcat([q[0]], q[1..], id);
    assert q == [q[0]] + q[1..];
  }

  /** Reading one message, exactly: a reply is written to its browser once, if that is in
      the table, and leaves the table alone; a `preempted` is written likewise and removes
      its browser; nothing else is written. */
  lemma ReadExactly(s: System)
    requires s.toServer != []
    ensures var t, m := Next(s, ServerReceive), s.toServer[0];
            && (m.RelayResponse? || m.id !in s.browserSessions ==>
                  t.written == s.written && t.browserSessions == s.browserSessions)
            && (m.Reply? && m.id in s.browserSessions ==>
                  t.written == s.written + [Write(m.id, m)] && t.browserSessions == s.browserSessions)
            && (m.Preempted? && m.id in s.browserSessions ==>
                  t.written == s.written + [Write(m.id, m)] && t.browserSessions == s.browserSessions - {m.id})
  {
    var m := s.toServer[0];
    assert !m.RelayResponse? && m.id !in s.browserSessions ==> s.browserSessions - {m.id} == s.browserSessions;
  }

  /** What reading one message does to a browser's replies. */
  lemma ReadReplies(s: System, id: SessionId)
    requires s.toServer != []
    ensures var t, m := Next(s, ServerReceive), s.toServer[0];
            var mine := if m.Reply? && m.id == id then [m.body] else [];
            && RepliesIn(s.toServer, id) == mine + RepliesIn(t.toServer, id)
            && RepliesGot(t.written, id) == RepliesGot(s.written, id) + (if id in s.browserSessions then mine else [])
  {
    var m := s.toServer[0];
    ReadExactly(s);
    PopReplies(s.toServer, id);
    if !m.RelayResponse? && m.id in s.browserSessions {
      GotAppend(s.written, Write(m.id, m), id);
    }
    assert RepliesGot(s.written, id) + [] == RepliesGot(s.written, id);
  }

  lemma ServerReceiveDelivered(s: System, sent: seq<nat>, id: SessionId)
    requires Delivered(s, sent, id) && s.toServer != []
    ensures Delivered(Next(s, ServerReceive), sent, id)
  {
    var t, m := Next(s, ServerReceive), s.toServer[0];
    var mine := if m.Reply? && m.id == id then [m.body] else [];
    ReadReplies(s, id);
    if id in s.browserSessions {
      Take(RepliesGot(s.written, id), mine, RepliesIn(t.toServer, id));
    }
    assert t.phases == s.phases && t.browserSessions <= s.browserSessions;
  }

  lemma StepDelivered(run: seq<System>, steps: seq<Step>, i: nat, id: SessionId)
    requires IsRun(run, steps) && i < |steps|
    requires Linked(run[i]) && Delivered(run[i], RepliesSent(run, steps, i, id), id)
    ensures Delivered(run[i + 1], RepliesSent(run, steps, i + 1, id), id)
  {
    var s, step, sent := run[i], steps[i], RepliesSent(run, steps, i, id);
    assert Enabled(s, step) && run[i + 1] == Next(s, step);
    assert !step.SessionSend? ==> RepliesSent(run, steps, i + 1, id) == sent;
    match step
    case AgentReceive => ReceiveDelivered(s, sent, id);
    case ServerReceive => ServerReceiveDelivered(s, sent, id);
    case SessionSend(jd, body) => SessionSendDelivered(s, jd, body, sent, id);
    case ForceCloseBegin(closed) =>
      NoReplies([Preempted(closed)], id);
      EmitDelivered(s, Next(s, step), if s.linkUp then [Preempted(closed)] else [], sent, id);
    case _ =>
  }

  lemma {:induction false} RunDelivered(run: seq<System>, steps: seq<Step>, i: nat, id: SessionId)
    requires IsRun(run, steps) && i <= |steps|
    ensures Delivered(run[i], RepliesSent(run, steps, i, id), id)
    decreases i
  {
    if i > 0 {
      RunDelivered(run, steps, i - 1, id);
      RunLinked(run, steps, i - 1);
      StepDelivered(run, steps, i - 1, id);
    }
  }

  /** Replies reach their browser: in every run what a browser was written is what its
      session sent, in the order it was sent, from the first on.  While the browser is in
      the server's table nothing is lost: what it was not written yet is on the way. */
  lemma RepliesArrive(run: seq<System>, steps: seq<Step>, i: nat, id: SessionId)
    requires IsRun(run, steps) && i <= |steps|
    ensures RepliesGot(run[i].written, id) <= RepliesSent(run, steps, i, id)
    ensures id in run[i].browserSessions ==>
              RepliesGot(run[i].written, id) + RepliesIn(run[i].toServer, id) == RepliesSent(run, steps, i, id)
  {
    RunDelivered(run, steps, i, id);
  }

  /** Nobody else is written anything: every message goes to the browser it names. */
  lemma {:induction false} WrittenToOwner(run: seq<System>, steps: seq<Step>, i: nat)
    requires IsRun(run, steps) && i <= |steps|
    ensures forall w :: w in run[i].written ==> !w.m.RelayResponse? && w.to == w.m.id
    decreases i
  {
    if i > 0 {
      WrittenToOwner(run, steps, i - 1);
      assert Enabled(run[i - 1], steps[i - 1]) && run[i] == Next(run[i - 1], steps[i - 1]);
    }
  }

  // ---------------------------------------------------------------------
  // From a browser to its session
  // ---------------------------------------------------------------------

  function SignalsIn(q: seq<ToAgent>, id: SessionId): seq<nat> {
    if q == [] then []
    else
      var n := |q| - 1;
      SignalsIn(q[..n], id) + if q[n].Routed? && q[n].id == id then [q[n].body] else []
  }

  function SignalWritten(s: System, step: Step, id: SessionId): seq<nat> {
    if step.BrowserSend? && step.id == id && step.msg.Signal? && s.linkUp then [step.msg.body] else []
  }

  function SignalTaken(s: System, step: Step, id: SessionId): seq<nat> {
    if step.AgentReceive? && s.toAgent != [] && s.toAgent[0].Routed? && s.toAgent[0].id == id then [s.toAgent[0].body]
    else []
  }

  /** The signals a browser wrote in the first i steps, while the link was up. */
  function SignalsSent(run: seq<System>, steps: seq<Step>, i: nat, id: SessionId): seq<nat>
    requires i <= |steps| < |run|
  {
    if i == 0 then [] else SignalsSent(run, steps, i - 1, id) + SignalWritten(run[i - 1], steps[i - 1], id)
  }

  /** The signals of the browser that the agent's loop read in the first i steps. */
  function SignalsRead(run: seq<System>, steps: seq<Step>, i: nat, id: SessionId): seq<nat>
    requires i <= |steps| < |run|
  {
    if i == 0 then [] else SignalsRead(run, steps, i - 1, id) + SignalTaken(run[i - 1], steps[i - 1], id)
  }

  lemma {:induction false} SignalsConcat(a: seq<ToAgent>, b: seq<ToAgent>, id: SessionId)
    ensures SignalsIn(a + b, id) == SignalsIn(a, id) + SignalsIn(b, id)
    decreases |b|
  {
    if b == [] {
      assert a + b == a;
    } else {
      SignalsConcat(a, b[..|b| - 1], id);
      assert (a + b)[..|a + b| - 1] == a + b[..|b| - 1];
    }
  }

  lemma SignalsOne(m: ToAgent, id: SessionId)
    ensures SignalsIn([m], id) == if m.Routed? && m.id == id then [m.body] else []
  {
    assert [m][..0] == [];
  }

  /** What a step puts on the agent's queue. */
  function Queued(s: System, step: Step): seq<ToAgent> {
    if !s.linkUp then []
    else match step
      case AnnounceBound(id) => [Bound(id)]
      case AnnounceUnbound(id) => [Unbound(id)]
      case BrowserSend(id, msg) => [Forwarded(id, msg)]
      case RelaySend(m) => [m]
      case _ => []
  }

  lemma QueueStep(s: System, step: Step)
    requires Enabled(s, step)
    ensures step.AgentReceive? ==> Next(s, step).toAgent == s.toAgent[1..]
    ensures !step.AgentReceive? && !step.LinkDown? ==> Next(s, step).toAgent == s.toAgent + Queued(s, step)
    ensures !step.LinkDown? ==> Next(s, step).linkUp == s.linkUp
  {}

  /** Nothing that was sent and not read is lost. */
  predicate Flows(link: bool, read: seq<nat>, flight: seq<nat>, sent: seq<nat>) {
    read <= sent && (link ==> read + flight == sent)
  }

  lemma SignalsPop(s: System, id: SessionId, read: seq<nat>, sent: seq<nat>)
    requires s.toAgent != [] && Flows(s.linkUp, read, SignalsIn(s.toAgent, id), sent) && s.linkUp
    ensures Flows(s.linkUp, read + SignalTaken(s, AgentReceive, id), SignalsIn(s.toAgent[1..], id), sent)
  {
    SignalsConcat([s.toAgent[0]], s.toAgent[1..], id);
    SignalsOne(s.toAgent[0], id);
    assert s.toAgent == [s.toAgent[0]] + s.toAgent[1..];
    Take(read, SignalTaken(s, AgentReceive, id), SignalsIn(s.toAgent[1..], id));
  }

  lemma SignalsPush(s: System, step: Step, id: SessionId)
    requires Enabled(s, step)
    ensures SignalsIn(s.toAgent + Queued(s, step), id) == SignalsIn(s.toAgent, id) + SignalWritten(s, step, id)
  {
    SignalsConcat(s.toAgent, Queued(s, step), id);
    if Queued(s, step) != [] { SignalsOne(Queued(s, step)[0], id); }
  }

  lemma SignalsStep(s: System, step: Step, id: SessionId, read: seq<nat>, sent: seq<nat>)
    requires Linked(s) && Enabled(s, step) && Flows(s.linkUp, read, SignalsIn(s.toAgent, id), sent)
    ensures var t := Next(s, step);
            Flows(t.linkUp, read + SignalTaken(s, step, id), SignalsIn(t.toAgent, id),
                  sent + SignalWritten(s, step, id))
  {
    QueueStep(s, step);
    if step.AgentReceive? {
      SignalsPop(s, id, read, sent);
      assert sent + SignalWritten(s, step, id) == sent;
    } else {
      SignalsPush(s, step, id);
      assert read + SignalTaken(s, step, id) == read;
      Take(read, SignalsIn(s.toAgent, id), SignalWritten(s, step, id));
    }
  }

  /** Signals are forwarded: what a browser wrote is read by the agent's loop once and in
      order; while the link is up nothing is lost. */
  lemma {:induction false} SignalsArrive(run: seq<System>, steps: seq<Step>, i: nat, id: SessionId)
    requires IsRun(run, steps) && i <= |steps|
    ensures SignalsRead(run, steps, i, id) <= SignalsSent(run, steps, i, id)
    ensures run[i].linkUp ==>
              SignalsRead(run, steps, i, id) + SignalsIn(run[i].toAgent, id) == SignalsSent(run, steps, i, id)
    decreases i
  {
    if i > 0 {
      SignalsArrive(run, steps, i - 1, id);
      RunLinked(run, steps, i - 1);
      assert Enabled(run[i - 1], steps[i - 1]) && run[i] == Next(run[i - 1], steps[i - 1]);
      SignalsStep(run[i - 1], steps[i - 1], id, SignalsRead(run, steps, i - 1, id), SignalsSent(run, steps, i - 1, id));
    }
  }

  // ---------------------------------------------------------------------
  // Relay requests
  // ---------------------------------------------------------------------

  function AnswersIn(q: seq<ToServer>): seq<nat> {
    if q == [] then []
    else
      var n := |q| - 1;
      AnswersIn(q[..n]) + if q[n].RelayResponse? then [q[n].relay] else []
  }

  function RelayTaken(s: System, step: Step): seq<nat> {
    if step.AgentReceive? && s.toAgent != [] && (s.toAgent[0].RelayPreempt? || s.toAgent[0].RelayQuery?)
    then [s.toAgent[0].relay] else []
  }

  function AnswerTaken(s: System, step: Step): seq<nat> {
    if step.ServerReceive? && s.toServer != [] && s.toServer[0].RelayResponse? then [s.toServer[0].relay] else []
  }

  /** The relay requests that the agent read in the first i steps. */
  function RelaysRead(run: seq<System>, steps: seq<Step>, i: nat): seq<nat>
    requires i <= |steps| < |run|
  {
    if i == 0 then [] else RelaysRead(run, steps, i - 1) + RelayTaken(run[i - 1], steps[i - 1])
  }

  /** The relay answers that the server read in the first i steps. */
  function AnswersRead(run: seq<System>, steps: seq<Step>, i: nat): seq<nat>
    requires i <= |steps| < |run|
  {
    if i == 0 then [] else AnswersRead(run, steps, i - 1) + AnswerTaken(run[i - 1], steps[i - 1])
  }

  lemma {:induction false} AnswersConcat(a: seq<ToServer>, b: seq<ToServer>)
    ensures AnswersIn(a + b) == AnswersIn(a) + AnswersIn(b)
    decreases |b|
  {
    if b == [] {
      assert a + b == a;
    } else {
      AnswersConcat(a, b[..|b| - 1]);
      assert (a + b)[..|a + b| - 1] == a + b[..|b| - 1];
    }
  }

  lemma AnswersOne(m: ToServer)
    ensures AnswersIn([m]) == if m.RelayResponse? then [m.relay] else []
  {
    assert [m][..0] == [];
  }

  /** Every handler answers exactly the relay requests. */
  lemma HandlerAnswers(a: Agent, m: ToAgent)
    requires SingleOk(a)
    ensures Receive(a, m).Outcome?
    ensures AnswersIn(Receive(a, m).sent) == if m.RelayPreempt? || m.RelayQuery? then [m.relay] else []
  {
    ReceiveSingle(a, m);
    match m
    case Bound(id) =>
      BoundOutcome(a, id);
      if a.current.Some? { AnswersOne(Preempted(a.current.value)); }
    case RelayPreempt(relay) =>
      AnswersOne(RelayResponse(relay));
      if Holder(a).Some? {
        AnswersOne(Preempted(Holder(a).value));
        AnswersConcat([Preempted(Holder(a).value)], [RelayResponse(relay)]);
        assert [Preempted(Holder(a).value)] + [RelayResponse(relay)] == Receive(a, m).sent;
      }
    case RelayQuery(relay) => AnswersOne(RelayResponse(relay));
    case _ =>
  }

  lemma AnswersPush(s: System, m: ToServer)
    requires !m.RelayResponse?
    ensures AnswersIn(Emit(s, [m]).toServer) == AnswersIn(s.toServer)
  {
    AnswersConcat(s.toServer, [m]);
    AnswersOne(m);
  }

  lemma AnswersPop(q: seq<ToServer>)
    requires q != []
    ensures AnswersIn(q) == (if q[0].RelayResponse? then [q[0].relay] else []) + AnswersIn(q[1..])
  {
    AnswersConcat([q[0]], q[1..]);
    AnswersOne(q[0]);
    assert q == [q[0]] + q[1..];
  }

  /** What a step adds to the answers on the way. */
  lemma AnswersStep(s: System, step: Step)
    requires Linked(s) && Enabled(s, step) && !step.ServerReceive? && !step.LinkDown?
    ensures AnswersIn(Next(s, step).toServer) == AnswersIn(s.toServer) + RelayTaken(s, step)
  {
    match step
    case AgentReceive =>
      HandlerAnswers(s.agent, s.toAgent[0]);
      AnswersConcat(s.toServer, Receive(s.agent, s.toAgent[0]).sent);
    case SessionSend(id, body) => AnswersPush(s, Reply(id, body));
    case ForceCloseBegin(id) => AnswersPush(s, Preempted(id));
    case _ =>
  }

  lemma RelaysStep(s: System, step: Step, read: seq<nat>, asked: seq<nat>)
    requires Linked(s) && Enabled(s, step) && Flows(s.linkUp, read, AnswersIn(s.toServer), asked)
    ensures var t := Next(s, step);
            Flows(t.linkUp, read + AnswerTaken(s, step), AnswersIn(t.toServer), asked + RelayTaken(s, step))
  {
    if step.ServerReceive? {
      AnswersPop(s.toServer);
      Take(read, AnswerTaken(s, step), AnswersIn(s.toServer[1..]));
      assert asked + RelayTaken(s, step) == asked;
    } else {
      assert read + AnswerTaken(s, step) == read;
      if !step.LinkDown? {
        AnswersStep(s, step);
        QueueStep(s, step);
        Take(read, AnswersIn(s.toServer), RelayTaken(s, step));
      }
    }
  }

  /** Every relay request is answered: while the link is up the answers read and on the
      way are the requests the agent read, in order. */
  lemma {:induction false} RelaysAnswered(run: seq<System>, steps: seq<Step>, i: nat)
    requires IsRun(run, steps) && i <= |steps|
    ensures AnswersRead(run, steps, i) <= RelaysRead(run, steps, i)
    ensures run[i].linkUp ==>
              AnswersRead(run, steps, i) + AnswersIn(run[i].toServer) == RelaysRead(run, steps, i)
    decreases i
  {
    if i > 0 {
      RelaysAnswered(run, steps, i - 1);
      RunLinked(run, steps, i - 1);
      assert Enabled(run[i - 1], steps[i - 1]) && run[i] == Next(run[i - 1], steps[i - 1]);
      RelaysStep(run[i - 1], steps[i - 1], AnswersRead(run, steps, i - 1), RelaysRead(run, steps, i - 1));
    }
  }

  // ---------------------------------------------------------------------
  // Who holds the device afterwards
  // ---------------------------------------------------------------------

  /** What the agent's loop does with each message, in every run: a bound gives the device
      to its session and tells another holder; an unbound takes its session away; a relay
      preempt takes it from whoever holds it and tells that one; nothing else changes who
      holds it. */
  lemma HandledExactly(run: seq<System>, steps: seq<Step>, i: nat)
    requires IsRun(run, steps) && i < |steps| && steps[i].AgentReceive?
    ensures var m, a, b := run[i].toAgent[0], run[i].agent, run[i + 1].agent;
            var news := run[i + 1].toServer;
            && (m.Bound? ==>
                  && b.sessions.Keys == {m.id} && b.current == Some(m.id)
                  && (a.current.Some? && a.current.value != m.id ==>
                        news == run[i].toServer + [Preempted(a.current.value)])
                  && (a.current.None? || a.current.value == m.id ==> news == run[i].toServer))
            && (m.Unbound? ==> b.sessions == a.sessions - {m.id} && news == run[i].toServer)
            && (m.RelayPreempt? ==>
                  && b.sessions == map[] && b.current == None
                  && news == run[i].toServer
                             + (if a.current.Some? then [Preempted(a.current.value)] else []) + [RelayResponse(m.relay)])
            && (m.RelayQuery? ==> b == a && news == run[i].toServer + [RelayResponse(m.relay)])
            && (m.Routed? ==> b == a && news == run[i].toServer)
  {
    var s := run[i];
    assert Enabled(s, steps[i]) && run[i + 1] == Next(s, steps[i]);
    RunLinked(run, steps, i);
    var m := s.toAgent[0];
    match m
    case Bound(id) =>
      BoundStep(s);
      BoundOutcome(s.agent, id);
      assert map[id := false].Keys == {id};
    case Unbound(id) =>
      UnboundStep(s);
      UnboundOutcome(s.agent, id, id);
    case RelayPreempt(_) =>
      if s.agent.current.Some? {
        RelayPreemptStep(s);
        PreemptOutcome(s.agent, s.agent.current.value, 0);
        assert s.agent.sessions - {s.agent.current.value} == map[];
      } else {
        assert s.agent.sessions == map[];
      }
    case _ =>
  }
}
