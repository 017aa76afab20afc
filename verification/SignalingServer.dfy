/** The signaling server's table of browser connections. */
module SignalingServerModel {
  import opened Common
  import opened TakeoverSpec

  // A browser WebSocket; only its identity matters.
  type Conn = nat

  class Server {
    var browserSessions: map<Conn, SessionId>
    var written: seq<(Conn, ToServer)>    // messages written to browser sockets
    var closed: set<Conn>

    /** Session ids are fresh, so no two connections share one. */
    ghost predicate Valid()
      reads this
    {
      forall c, d :: c in browserSessions && d in browserSessions && browserSessions[c] == browserSessions[d] ==> c == d
    }

    ghost function Ids(): set<SessionId>
      reads this
    {
      browserSessions.Values
    }

    constructor ()
      ensures Valid() && Ids() == {} && written == [] && closed == {}
    {
      browserSessions, written, closed := map[], [], {};
    }

    /** HandleBrowserWS, the locked insertion. */
    method Enter(ws: Conn, sessionID: SessionId)
      requires Valid() && ws !in browserSessions && sessionID !in Ids()
      modifies this`browserSessions
      ensures Valid() && browserSessions == old(browserSessions)[ws := sessionID]
      ensures Ids() == ServerEnter(old(Ids()), sessionID)
    {
      ghost var before := browserSessions;
      browserSessions := browserSessions[ws := sessionID];
      assert browserSessions[ws] == sessionID;
      assert forall c :: c in before ==> browserSessions[c] == before[c];
    }

    /** The deferred deletion of a connection's goroutine; harmless when the
        entry is already gone. */
    method Leave(ws: Conn)
      requires Valid()
      modifies this
      ensures Valid() && browserSessions == old(browserSessions) - {ws}
      ensures Ids() == if ws in old(browserSessions) then ServerLeave(old(Ids()), old(browserSessions)[ws]) else old(Ids())
      ensures closed == old(closed) + {ws} && written == old(written)
    {
      RemovalIds(browserSessions, ws);
      browserSessions := browserSessions - {ws};
      closed := closed + {ws};
    }

    /** The entry with the given session id, if there is one. */
    method Find(sessionID: SessionId) returns (ws: Option<Conn>)
      requires Valid()
      ensures ws.Some? <==> sessionID in Ids()
      ensures ws.Some? ==> ws.value in browserSessions && browserSessions[ws.value] == sessionID
    {
      var left := browserSessions.Keys;
      while left != {}
        invariant left <= browserSessions.Keys
        invariant forall c :: c in browserSessions && c !in left ==> browserSessions[c] != sessionID
      {
        var c :| c in left;
        if browserSessions[c] == sessionID { return Some(c); }
        left := left - {c};
      }
      return None;
    }

    /** Tell the browser first, then close it and forget it. */
    method PreemptBrowser(sessionID: SessionId)
      requires Valid()
      modifies this
      ensures Valid() && Ids() == ServerRead(old(Ids()), Preempted(sessionID))
      ensures sessionID !in old(Ids()) ==>
                browserSessions == old(browserSessions) && written == old(written) && closed == old(closed)
      ensures forall c :: c in old(browserSessions) && old(browserSessions)[c] == sessionID ==>
                && browserSessions == old(browserSessions) - {c}
                && written == old(written) + [(c, Preempted(sessionID))]
                && closed == old(closed) + {c}
    {
      var ws := Find(sessionID);
      if ws.Some? {
        RemovalIds(browserSessions, ws.value);
        written := written + [(ws.value, Preempted(sessionID))];
        closed := closed + {ws.value};
        browserSessions := browserSessions - {ws.value};
      }
    }

    /** Exactly the addressed browser gets the message; otherwise it is lost. */
    method ForwardToBrowser(m: ToServer)
      requires Valid() && !m.RelayResponse?
      modifies this`written
      ensures (forall c :: c in browserSessions ==> browserSessions[c] != m.id) ==> written == old(written)
      ensures forall c :: c in browserSessions && browserSessions[c] == m.id ==>
                written == old(written) + [(c, m)]
    {
      var ws := Find(m.id);
      if ws.Some? { written := written + [(ws.value, m)]; }
    }

    /** The agent's connection dropped: every browser bound to it is closed. */
    method CloseBrowsersForAgent()
      requires Valid()
      modifies this
      ensures Valid() && browserSessions == map[] && Ids() == {}
      ensures closed == old(closed) + old(browserSessions).Keys && written == old(written)
    {
      while browserSessions != map[]
        invariant Valid() && written == old(written)
        invariant forall c :: c in browserSessions ==> c in old(browserSessions)
        invariant closed == old(closed) + (old(browserSessions).Keys - browserSessions.Keys)
        decreases |browserSessions|
      {
        assert browserSessions.Keys != {};
        var c :| c in browserSessions;
        ghost var before := browserSessions;
        closed := closed + {c};
        browserSessions := browserSessions - {c};
        assert browserSessions.Keys == before.Keys - {c};
        assert |browserSessions| == |browserSessions.Keys| && |before| == |before.Keys|;
      }
    }

    /** The messages written, without the sockets they went to. */
    ghost function Written(): seq<ToServer>
      reads this
    {
      seq(|written|, i requires 0 <= i < |written| reads this => written[i].1)
    }

    /** One iteration of the agent's read loop in HandleAgentWS.  A reply is written to
        the browser it names and changes nothing else; a `preempted` is written to it,
        and then its socket is closed and its entry removed; when nobody has that id, and
        for relay answers, nothing happens here. */
    method HandleAgentMessage(m: ToServer)
      requires Valid()
      modifies this
      ensures Valid() && Ids() == ServerRead(old(Ids()), m)
      ensures Written() == old(Written()) + (if ServerWrites(old(Ids()), m) == [] then [] else [m])
      ensures m.RelayResponse? || m.id !in old(browserSessions).Values ==>
                browserSessions == old(browserSessions) && written == old(written) && closed == old(closed)
      ensures forall c :: c in old(browserSessions) && m.Reply? && old(browserSessions)[c] == m.id ==>
                written == old(written) + [(c, m)] && browserSessions == old(browserSessions) && closed == old(closed)
      ensures forall c :: c in old(browserSessions) && m.Preempted? && old(browserSessions)[c] == m.id ==>
                && written == old(written) + [(c, m)]
                && browserSessions == old(browserSessions) - {c} && closed == old(closed) + {c}
    {
      match m
      case Preempted(id) => PreemptBrowser(id);
      case Reply(_, _) => ForwardToBrowser(m);
      case RelayResponse(_) =>
    }
  }

  /** Removing the only entry with an id removes the id and no other. */
  lemma RemovalIds(m: map<Conn, SessionId>, ws: Conn)
    requires forall c, d :: c in m && d in m && m[c] == m[d] ==> c == d
    ensures (m - {ws}).Values == if ws in m then m.Values - {m[ws]} else m.Values
  {
    var r := m - {ws};
    forall id | id in m.Values && (ws !in m || id != m[ws]) ensures id in r.Values {
      var c :| c in m && m[c] == id;
      assert c in r && r[c] == id;
    }
  }
}
