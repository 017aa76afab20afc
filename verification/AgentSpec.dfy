/** The session takeover protocol between the signaling server and one agent.

  Two FIFO queues connect the two sides.  Every step is one lock section or one
  message handler.  A ForceCloseSession call runs on its own goroutine, so it is
  split at the point where it waits for the session to stop: other handlers may
  run between its two halves.
*/
module TakeoverSpec {
  import opened Common

  // Session ids are fresh UUIDs; only their identity matters.
  type SessionId = nat

  const MAX_SESSIONS := 5

  datatype ToAgent =
    | Bound(id: SessionId)
    | Unbound(id: SessionId)
    | Routed(id: SessionId, body: nat)   // offer, ice_candidate, decoder_status, ...
    | RelayPreempt(relay: nat)
    | RelayQuery(relay: nat)

  datatype ToServer =
    | Preempted(id: SessionId)
    | Reply(id: SessionId, body: nat)    // answer, ice_candidate, error, stream_dead
    | RelayResponse(relay: nat)

  datatype Reason = UserUnbound | Forced | AgentStop | Platform(text: string)

  datatype Event = Started(id: SessionId) | Stopped(id: SessionId, reason: Reason)

  /** Agent state.  `sessions` maps an id to its context's preemptedByForce flag;
      `closing` holds the ForceCloseSession calls between their two halves.
      `overlaps` is a history variable: the preemptions that hit a session whose
      flag was already set. */
  datatype Agent = Agent(
    sessions: map<SessionId, bool>,
    current: Option<SessionId>,
    closing: multiset<SessionId>,
    events: seq<Event>,
    overlaps: multiset<SessionId>)

  datatype Outcome = Outcome(agent: Agent, sent: seq<ToServer>) | RefusedBound

  const IdleAgent := Agent(map[], None, multiset{}, [], multiset{})

  function Forget(a: Agent, id: SessionId): Agent {
    a.(sessions := a.sessions - {id},
       current := if a.current == Some(id) then None else a.current)
  }

  function NoteOverlap(a: Agent, id: SessionId): Agent {
    if id in a.sessions && a.sessions[id] then a.(overlaps := a.overlaps + multiset{id}) else a
  }

  function Preempt(a: Agent, id: SessionId, reason: Reason): Agent {
    var b := Forget(NoteOverlap(a, id), id);
    b.(events := b.events + [Stopped(id, reason)])
  }

  /** The current session, when its context is still registered. */
  function Holder(a: Agent): Option<SessionId> {
    if a.current.Some? && a.current.value in a.sessions then a.current else None
  }

  function Admit(a: Agent, id: SessionId): Agent {
    a.(sessions := a.sessions[id := false], current := Some(id), events := a.events + [Started(id)])
  }

  function HandleBound(a: Agent, id: SessionId): Outcome {
    if |a.sessions| >= MAX_SESSIONS then
      RefusedBound
    else if Holder(a).Some? && Holder(a) != Some(id) then
      Outcome(Admit(Preempt(a, Holder(a).value, Forced), id), [Preempted(Holder(a).value)])
    else
      Outcome(Admit(a, id), [])
  }

  function HandleUnbound(a: Agent, id: SessionId): Agent {
    if id !in a.sessions then a
    else
      var b := Forget(a, id);
      if a.sessions[id] then b else b.(events := b.events + [Stopped(id, UserUnbound)])
  }

  function HandleRelayPreempt(a: Agent, relay: nat): Outcome {
    if Holder(a).Some? then
      Outcome(Preempt(a, Holder(a).value, Forced), [Preempted(Holder(a).value), RelayResponse(relay)])
    else
      Outcome(a, [RelayResponse(relay)])
  }

  function Receive(a: Agent, m: ToAgent): Outcome {
    match m
    case Bound(id) => HandleBound(a, id)
    case Unbound(id) => Outcome(HandleUnbound(a, id), [])
    case RelayPreempt(relay) => HandleRelayPreempt(a, relay)
    case RelayQuery(relay) => Outcome(a, [RelayResponse(relay)])
    case Routed(_, _) => Outcome(a, [])
  }

  /** First half of ForceCloseSession: mark, notify, signal stop. */
  function ForceBegin(a: Agent, id: SessionId): Agent
    requires id in a.sessions
  {
    var b := NoteOverlap(a, id);
    b.(sessions := b.sessions[id := true], closing := b.closing + multiset{id})
  }

  /** The reason given by the platform; an empty one counts as forced. */
  function CloseReason(text: string): Reason {
    if text == "" then Forced else Platform(text)
  }

  /** Second half: remove the session and report it. */
  function ForceFinish(a: Agent, id: SessionId, text: string): Agent
    requires id in a.closing
  {
    var b := Forget(a, id);
    b.(closing := b.closing - multiset{id}, events := b.events + [Stopped(id, CloseReason(text))])
  }

  function StopEvents(ids: seq<SessionId>): (r: seq<Event>) {
    seq(|ids|, i requires 0 <= i < |ids| => Stopped(ids[i], AgentStop))
  }

  function NoteOverlaps(a: Agent, ids: seq<SessionId>): Agent
    decreases |ids|
  {
    if ids == [] then a
    else NoteOverlap(NoteOverlaps(a, ids[..|ids| - 1]), ids[|ids| - 1])
  }

  lemma NoteOverlapsSnoc(a: Agent, ids: seq<SessionId>, id: SessionId)
    ensures NoteOverlaps(a, ids + [id]) == NoteOverlap(NoteOverlaps(a, ids), id)
  {
    assert (ids + [id])[..|ids|] == ids;
  }

  /** shutdownAll; `ids` is the order in which the session map was walked. */
  function Shutdown(a: Agent, ids: seq<SessionId>): Agent {
    var b := NoteOverlaps(a, ids);
    b.(sessions := map[], current := None, events := b.events + StopEvents(ids))
  }

  // ---------------------------------------------------------------------
  // The server's half, on the set of session ids in its browser table
  // ---------------------------------------------------------------------

  function ServerEnter(ids: set<SessionId>, id: SessionId): set<SessionId> { ids + {id} }

  function ServerLeave(ids: set<SessionId>, id: SessionId): set<SessionId> { ids - {id} }

  /** A `preempted` removes the addressed entry; everything else is passed on. */
  function ServerRead(ids: set<SessionId>, m: ToServer): set<SessionId> {
    if m.Preempted? then ids - {m.id} else ids
  }

  /** What the server writes to a browser's socket. */
  datatype Write = Write(to: SessionId, m: ToServer)

  /** A message for a browser is written to the one it names, if that is in the table. */
  function ServerWrites(ids: set<SessionId>, m: ToServer): seq<Write> {
    if !m.RelayResponse? && m.id in ids then [Write(m.id, m)] else []
  }
}
