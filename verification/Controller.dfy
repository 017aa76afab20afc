/** The agent's controller: the object whose handlers the protocol steps specify. */
module ControllerModel {
  import opened Common
  import opened TakeoverSpec

  class SessionCtx {
    const id: SessionId
    var stopped: bool
    var preemptedByForce: bool

    constructor (id: SessionId)
      ensures this.id == id && !stopped && !preemptedByForce
    {
      this.id := id;
      stopped, preemptedByForce := false, false;
    }
  }

  class Controller {
    var sessions: map<SessionId, SessionCtx>
    var currentSessionID: Option<SessionId>
    var busy: bool                  // deviceState
    var sent: seq<ToServer>         // everything written to the signaling socket
    var events: seq<Event>          // everything reported through the hooks
    ghost var closing: multiset<SessionId>
    ghost var overlaps: multiset<SessionId>

    ghost predicate Valid()
      reads this, sessions.Values
    {
      forall id :: id in sessions ==> sessions[id].id == id
    }

    ghost function Abs(): Agent
      reads this, sessions.Values
    {
      Agent(map id | id in sessions :: sessions[id].preemptedByForce,
            currentSessionID, closing, events, overlaps)
    }

    constructor ()
      ensures Valid() && Abs() == IdleAgent && sent == [] && !busy
    {
      sessions, currentSessionID, busy, sent, events := map[], None, false, [], [];
      closing, overlaps := multiset{}, multiset{};
      new;
      assert Abs().sessions == map[];
    }

    /** preemptAndWait up to the point where it waits for the session to stop. */
    method MarkAndNotify(ctx: SessionCtx, sessionID: SessionId)
      requires Valid() && sessionID in sessions && sessions[sessionID] == ctx
      modifies this`sent, this`overlaps, ctx
      ensures Valid() && ctx.stopped && ctx.preemptedByForce
      ensures Abs() == NoteOverlap(old(Abs()), sessionID).(sessions := old(Abs()).sessions[sessionID := true])
      ensures sent == old(sent) + [Preempted(sessionID)]
    {
      if ctx.preemptedByForce { overlaps := overlaps + multiset{sessionID}; }
      ctx.preemptedByForce := true;
      sent := sent + [Preempted(sessionID)];
      ctx.stopped := true;
      assert Abs().sessions == old(Abs()).sessions[sessionID := true];
    }

    /** Drop a session from the map and go idle. */
    method Remove(sessionID: SessionId)
      requires Valid()
      modifies this`sessions, this`currentSessionID, this`busy
      ensures Valid() && sessions == old(sessions) - {sessionID} && !busy
      ensures Abs() == Forget(old(Abs()), sessionID)
    {
      sessions := sessions - {sessionID};
      if currentSessionID == Some(sessionID) { currentSessionID := None; }
      busy := false;
      assert Abs().sessions == old(Abs()).sessions - {sessionID};
    }

    /** The rest of preemptAndWait, after the wait ended or timed out. */
    method RemoveAndReport(sessionID: SessionId, reason: Reason)
      requires Valid()
      modifies this`sessions, this`currentSessionID, this`busy, this`events
      ensures Valid() && sessions == old(sessions) - {sessionID} && !busy
      ensures var b := Forget(old(Abs()), sessionID);
              Abs() == b.(events := b.events + [Stopped(sessionID, reason)])
    {
      Remove(sessionID);
      events := events + [Stopped(sessionID, reason)];
    }

    method PreemptAndWait(ctx: SessionCtx, sessionID: SessionId, reason: Reason)
      requires Valid() && sessionID in sessions && sessions[sessionID] == ctx
      modifies this, ctx
      ensures Valid() && sessions == old(sessions) - {sessionID} && ctx.stopped && !busy
      ensures Abs() == Preempt(old(Abs()), sessionID, reason)
      ensures sent == old(sent) + [Preempted(sessionID)]
    {
      MarkAndNotify(ctx, sessionID);
      RemoveAndReport(sessionID, reason);
      assert Abs().sessions == old(Abs()).sessions - {sessionID};
    }

    lemma SameSize()
      ensures |Abs().sessions| == |sessions|
    {
      assert Abs().sessions.Keys == sessions.Keys;
      assert |Abs().sessions| == |Abs().sessions.Keys| && |sessions| == |sessions.Keys|;
    }

    /** Create the session's context and make it current. */
    method Register(sessionID: SessionId)
      requires Valid()
      modifies this`sessions, this`currentSessionID, this`events
      ensures Valid() && fresh(sessions.Values - old(sessions.Values))
      ensures Abs() == Admit(old(Abs()), sessionID)
    {
      var ctx := new SessionCtx(sessionID);
      sessions := sessions[sessionID := ctx];
      currentSessionID := Some(sessionID);
      events := events + [Started(sessionID)];
      assert Abs().sessions == old(Abs()).sessions[sessionID := false];
    }

    method HandleBound(sessionID: SessionId) returns (refused: bool)
      requires Valid()
      modifies this, sessions.Values
      ensures Valid() && fresh(sessions.Values - old(sessions.Values))
      ensures refused <==> TakeoverSpec.HandleBound(old(Abs()), sessionID).RefusedBound?
      ensures refused ==> Abs() == old(Abs()) && sent == old(sent)
      ensures !refused ==>
                var o := TakeoverSpec.HandleBound(old(Abs()), sessionID);
                Abs() == o.agent && sent == old(sent) + o.sent
    {
      SameSize();
      if |sessions| >= MAX_SESSIONS { return true; }
      var oldID := currentSessionID;
      ghost var a := Abs();
      if oldID.Some? && oldID != Some(sessionID) && oldID.value in sessions {
        assert Holder(a) == oldID;
        PreemptAndWait(sessions[oldID.value], oldID.value, Forced);
      }
      Register(sessionID);
      return false;
    }

    method HandleUnbound(sessionID: SessionId)
      requires Valid()
      modifies this, sessions.Values
      ensures Valid() && sessions == old(sessions) - {sessionID}
      ensures Abs() == TakeoverSpec.HandleUnbound(old(Abs()), sessionID) && sent == old(sent)
      ensures sessionID in old(sessions) ==> old(sessions)[sessionID].stopped && !busy
    {
      if sessionID !in sessions {
        assert sessions - {sessionID} == sessions;
        return;
      }
      var ctx := sessions[sessionID];
      ctx.stopped := true;
      assert Abs() == old(Abs());
      Remove(sessionID);
      if !ctx.preemptedByForce { events := events + [Stopped(sessionID, UserUnbound)]; }
    }

    method HandleRelayPreempt(relay: nat)
      requires Valid()
      modifies this, sessions.Values
      ensures Valid()
      ensures var o := TakeoverSpec.HandleRelayPreempt(old(Abs()), relay);
              Abs() == o.agent && sent == old(sent) + o.sent
    {
      if currentSessionID.Some? && currentSessionID.value in sessions {
        PreemptAndWait(sessions[currentSessionID.value], currentSessionID.value, Forced);
      }
      sent := sent + [RelayResponse(relay)];
    }

    /** ForceCloseSession up to the wait; an unknown id is an error. */
    method ForceCloseBegin(sessionID: SessionId) returns (found: bool)
      requires Valid()
      modifies this, sessions.Values
      ensures Valid() && sessions == old(sessions)
      ensures found <==> sessionID in old(Abs()).sessions
      ensures found ==> Abs() == ForceBegin(old(Abs()), sessionID)
                        && sent == old(sent) + [Preempted(sessionID)]
      ensures !found ==> Abs() == old(Abs()) && sent == old(sent)
    {
      if sessionID !in sessions { return false; }
      MarkAndNotify(sessions[sessionID], sessionID);
      closing := closing + multiset{sessionID};
      return true;
    }

    /** The rest of ForceCloseSession, with the platform's reason. */
    method ForceCloseFinish(sessionID: SessionId, reason: string)
      requires Valid() && sessionID in closing
      modifies this
      ensures Valid() && Abs() == ForceFinish(old(Abs()), sessionID, reason) && sent == old(sent)
    {
      RemoveAndReport(sessionID, if reason == "" then Forced else Platform(reason));
      closing := closing - multiset{sessionID};
    }

    /** The message loop of runOnce.  `routed` is the context that a default
        message is queued on, if there is one. */
    method HandleMessage(m: ToAgent) returns (refused: bool, routed: Option<SessionId>)
      requires Valid()
      modifies this, sessions.Values
      ensures Valid()
      ensures refused <==> Receive(old(Abs()), m).RefusedBound?
      ensures !refused ==> Abs() == Receive(old(Abs()), m).agent
                           && sent == old(sent) + Receive(old(Abs()), m).sent
      ensures routed == if m.Routed? && m.id in old(sessions) then Some(m.id) else None
    {
      refused, routed := false, None;
      match m
      case Bound(id) => refused := HandleBound(id);
      case Unbound(id) => HandleUnbound(id);
      case RelayPreempt(relay) => HandleRelayPreempt(relay);
      case RelayQuery(relay) => sent := sent + [RelayResponse(relay)];
      case Routed(id, _) => if id in sessions { routed := Some(id); }
    }

    /** The locked part of shutdownAll: collect the ids and stop every session. */
    method StopAll() returns (ids: seq<SessionId>)
      requires Valid()
      modifies this`overlaps, sessions.Values
      ensures Valid() && multiset(ids) == multiset(sessions.Keys)
      ensures Abs() == NoteOverlaps(old(Abs()), ids)
      ensures forall id :: id in sessions ==> sessions[id].stopped
    {
      ids := [];
      var left := sessions.Keys;
      ghost var start := Abs();
      while left != {}
        invariant Valid() && left <= sessions.Keys
        invariant multiset(ids) + multiset(left) == multiset(sessions.Keys)
        invariant forall id :: id in sessions && id !in left ==> sessions[id].stopped
        invariant Abs() == NoteOverlaps(start, ids)
      {
        var id :| id in left;
        StopOne(sessions[id], id);
        assert Abs() == NoteOverlaps(start, ids + [id]) by { NoteOverlapsSnoc(start, ids, id); }
        MoveOne(ids, left, id);
        ids := ids + [id];
        left := left - {id};
      }
    }

    static lemma MoveOne(ids: seq<SessionId>, left: set<SessionId>, id: SessionId)
      requires id in left
      ensures multiset(ids + [id]) + multiset(left - {id}) == multiset(ids) + multiset(left)
    {
      assert left == (left - {id}) + {id};
    }

    method StopOne(ctx: SessionCtx, id: SessionId)
      requires Valid() && id in sessions && sessions[id] == ctx
      modifies this`overlaps, ctx`stopped
      ensures Valid() && ctx.stopped && Abs() == NoteOverlap(old(Abs()), id)
    {
      ctx.stopped := true;
      if ctx.preemptedByForce { overlaps := overlaps + multiset{id}; }
      assert Abs().sessions == old(Abs()).sessions;
    }

    method ClearSessions()
      requires Valid()
      modifies this`sessions, this`currentSessionID, this`busy
      ensures Valid() && Abs() == old(Abs()).(sessions := map[], current := None) && !busy
    {
      sessions, currentSessionID, busy := map[], None, false;
      assert Abs().sessions == map[];
    }

    /** The hook calls of shutdownAll, made outside the lock. */
    method ReportStops(ids: seq<SessionId>)
      modifies this`events
      ensures events == old(events) + StopEvents(ids)
    {
      var i := 0;
      while i < |ids|
        invariant 0 <= i <= |ids| && events == old(events) + StopEvents(ids[..i])
      {
        assert StopEvents(ids[..i + 1]) == StopEvents(ids[..i]) + [Stopped(ids[i], AgentStop)];
        events := events + [Stopped(ids[i], AgentStop)];
        i := i + 1;
      }
      assert ids[..|ids|] == ids;
    }

    /** shutdownAll: stop every session, clear the map, report each stop. */
    method ShutdownAll() returns (ids: seq<SessionId>)
      requires Valid()
      modifies this, sessions.Values
      ensures Valid() && multiset(ids) == multiset(old(sessions).Keys)
      ensures Abs() == Shutdown(old(Abs()), ids) && sent == old(sent) && !busy
      ensures forall id :: id in old(sessions) ==> old(sessions)[id].stopped
    {
      ids := StopAll();
      ClearSessions();
      ReportStops(ids);
    }
  }
}
