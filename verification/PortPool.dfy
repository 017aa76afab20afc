/** Local ports for adb forwarding, and the sessions that hold them. */
module PortPoolModel {
  import opened Common

  /** The lowest free port, searching from start + i. */
  function FirstFree(start: int, size: nat, used: set<int>, i: nat): (r: Option<int>)
    requires i <= size
    ensures r.Some? ==> start + i <= r.value < start + size && r.value !in used
                        && forall p :: start + i <= p < r.value ==> p in used
    ensures r.None? ==> forall p :: start + i <= p < start + size ==> p in used
    decreases size - i
  {
    if i == size then None
    else if start + i !in used then Some(start + i)
    else FirstFree(start, size, used, i + 1)
  }

  class Pool {
    const start: int
    const size: nat
    var used: set<int>

    constructor (start: int, size: nat)
      ensures this.start == start && this.size == size && used == {}
    {
      this.start, this.size, used := start, size, {};
    }

    method Acquire() returns (port: Option<int>)
      modifies this
      ensures port == FirstFree(start, size, old(used), 0)
      ensures used == if port.Some? then old(used) + {port.value} else old(used)
    {
      var i := 0;
      while i < size
        invariant 0 <= i <= size && used == old(used)
        invariant FirstFree(start, size, used, 0) == FirstFree(start, size, used, i)
      {
        var p := start + i;
        if p !in used {
          used := used + {p};
          return Some(p);
        }
        i := i + 1;
      }
      return None;
    }

    method Release(port: int)
      modifies this
      ensures used == old(used) - {port}
    {
      used := used - {port};
    }
  }

  datatype SessionState =
    Created | PortAllocated | Forwarded | ServerRunning | Connected | Streaming | Error | Released

  /** The channels that Release drains, each closed by its own forwarder. */
  datatype Channel = Video | Audio | Control

  const CHANNELS := {Video, Audio, Control}

  /** What a session holds; adbPort 0 means no port.  `connected`: its sockets were
      opened.  `running` are the forwarders at work, `closed` the closed channels;
      `releasing` is a Release call that waits for the three channels. */
  datatype Holding = Holding(
    state: SessionState, adbPort: int, audio: bool, connected: bool,
    forwarders: bool, running: set<Channel>, closed: set<Channel>, releasing: bool)

  function NewHolding(audio: bool): Holding {
    Holding(Created, 0, audio, false, false, {}, {}, false)
  }

  /** How Start goes once a port is allocated. */
  datatype StartResult = ForwardFails | ServerFails | ConnectFails | Succeeds

  /** releasePort: port 0 is never given back. */
  function GiveBack(used: set<int>, h: Holding): (set<int>, Holding) {
    if h.adbPort != 0 then (used - {h.adbPort}, h.(adbPort := 0)) else (used, h)
  }

  function Start(start: int, size: nat, used: set<int>, h: Holding, r: StartResult): (set<int>, Holding) {
    match FirstFree(start, size, used, 0)
    case None => (used, h.(state := Error))
    case Some(p) =>
      if r == Succeeds then (used + {p}, h.(state := Streaming, adbPort := p, connected := true))
      else GiveBack(used + {p}, h.(state := Error, adbPort := p))
  }

  /** The channels that get a forwarder: audio only when it is on. */
  function WithForwarder(audio: bool): set<Channel> {
    if audio then CHANNELS else {Video, Control}
  }

  function StartForwarding(h: Holding): Holding {
    if h.forwarders then h else h.(forwarders := true, running := WithForwarder(h.audio))
  }

  /** A forwarder returns, at the end of its socket or because it was stopped. */
  function EndForwarder(h: Holding, c: Channel): Holding {
    h.(running := h.running - {c}, closed := h.closed + {c})
  }

  /** Release up to its wait for the forwarders and the channels. */
  function BeginRelease(h: Holding): Holding {
    if h.state == Released then h else h.(state := Released, releasing := true)
  }

  /** The wait is over when every forwarder has returned and every channel is closed. */
  predicate DrainEnds(h: Holding) {
    h.releasing && h.running == {} && h.closed == CHANNELS
  }

  /** The rest of Release. */
  function EndRelease(used: set<int>, h: Holding): (set<int>, Holding) {
    GiveBack(used, h.(releasing := false))
  }

  class Session {
    const pool: Pool
    const audioEnabled: bool
    var state: SessionState
    var adbPort: int
    var connected: bool
    var forwardersStarted: bool
    var running: set<Channel>
    var closed: set<Channel>
    var releasing: bool

    ghost function Abs(): Holding
      reads this
    {
      Holding(state, adbPort, audioEnabled, connected, forwardersStarted, running, closed, releasing)
    }

    constructor (pool: Pool, audioEnabled: bool)
      ensures this.pool == pool && Abs() == NewHolding(audioEnabled)
    {
      this.pool, this.audioEnabled := pool, audioEnabled;
      state, adbPort, connected := Created, 0, false;
      forwardersStarted, running, closed, releasing := false, {}, {}, false;
    }

    method ReleasePort()
      modifies this`adbPort, pool
      ensures (pool.used, Abs()) == GiveBack(old(pool.used), old(Abs()))
    {
      if adbPort != 0 {
        pool.Release(adbPort);
        adbPort := 0;
      }
    }

    /** Start, with the outcome of the adb and socket steps as an input. */
    method StartSession(r: StartResult) returns (ok: bool)
      modifies this, pool
      ensures (pool.used, Abs()) == Start(pool.start, pool.size, old(pool.used), old(Abs()), r)
      ensures ok <==> r == Succeeds && FirstFree(pool.start, pool.size, old(pool.used), 0).Some?
    {
      var port := pool.Acquire();
      if port.None? {
        state := Error;
        return false;
      }
      adbPort := port.value;
      state := PortAllocated;
      if r == ForwardFails {
        state := Error;
        ReleasePort();
        return false;
      }
      state := Forwarded;
      if r == ServerFails {
        state := Error;
        ReleasePort();
        return false;
      }
      state := ServerRunning;
      if r == ConnectFails {
        state := Error;
        ReleasePort();
        return false;
      }
      connected := true;
      state := Connected;
      state := Streaming;
      return true;
    }

    method StartForwarders()
      modifies this`forwardersStarted, this`running
      ensures Abs() == StartForwarding(old(Abs()))
    {
      if forwardersStarted { return; }
      forwardersStarted := true;
      running := {Video, Control};
      if audioEnabled { running := running + {Audio}; }
      assert running == WithForwarder(audioEnabled);
    }

    /** The deferred close of a forwarder's channel. */
    method ForwarderReturns(c: Channel)
      requires c in running
      modifies this`running, this`closed
      ensures Abs() == EndForwarder(old(Abs()), c)
    {
      running := running - {c};
      closed := closed + {c};
    }

    /** Release until it waits; a second call returns at once. */
    method ReleaseBegin() returns (waits: bool)
      modifies this`state, this`releasing
      ensures Abs() == BeginRelease(old(Abs()))
      ensures waits <==> old(state) != Released
    {
      if state == Released { return false; }
      state := Released;
      releasing := true;
      return true;
    }

    /** What Release does once all three channels are drained. */
    method ReleaseEnd()
      requires DrainEnds(Abs())
      modifies this`adbPort, this`releasing, pool
      ensures (pool.used, Abs()) == EndRelease(old(pool.used), old(Abs()))
    {
      releasing := false;
      ReleasePort();
    }
  }

  // ---------------------------------------------------------------------
  // One pool, many sessions
  // ---------------------------------------------------------------------

  type Id = nat

  datatype System = System(used: set<int>, sessions: map<Id, Holding>)

  datatype Step =
    | New(id: Id, audio: bool)
    | StartStep(id: Id, r: StartResult)
    | Forwarders(id: Id)
    | ForwarderEnds(id: Id, c: Channel)
    | ReleaseBegins(id: Id)
    | ReleaseEnds(id: Id)

  /** Forwarders are started on sessions that Acquire returned, so their sockets were
      opened; by then the session may have been released already. */
  predicate Enabled(s: System, step: Step) {
    match step
    case New(id, _) => id !in s.sessions
    case StartStep(id, _) => id in s.sessions && s.sessions[id].state == Created
    case Forwarders(id) => id in s.sessions && s.sessions[id].connected
    case ForwarderEnds(id, c) => id in s.sessions && c in s.sessions[id].running
    case ReleaseBegins(id) => id in s.sessions
    case ReleaseEnds(id) => id in s.sessions && DrainEnds(s.sessions[id])
  }

  function Update(s: System, id: Id, h: Holding): System {
    s.(sessions := s.sessions[id := h])
  }

  function Next(start: int, size: nat, s: System, step: Step): System
    requires Enabled(s, step)
  {
    match step
    case New(id, audio) => Update(s, id, NewHolding(audio))
    case StartStep(id, r) =>
      var (used, h) := Start(start, size, s.used, s.sessions[id], r);
      System(used, s.sessions[id := h])
    case Forwarders(id) => Update(s, id, StartForwarding(s.sessions[id]))
    case ForwarderEnds(id, c) => Update(s, id, EndForwarder(s.sessions[id], c))
    case ReleaseBegins(id) => Update(s, id, BeginRelease(s.sessions[id]))
    case ReleaseEnds(id) =>
      var (used, h) := EndRelease(s.used, s.sessions[id]);
      System(used, s.sessions[id := h])
  }

  ghost predicate IsPath(start: int, size: nat, run: seq<System>, steps: seq<Step>) {
    && |run| == |steps| + 1
    && forall i :: 0 <= i < |steps| ==> Enabled(run[i], steps[i]) && run[i + 1] == Next(start, size, run[i], steps[i])
  }

  ghost predicate IsRun(start: int, size: nat, run: seq<System>, steps: seq<Step>) {
    IsPath(start, size, run, steps) && run[0] == System({}, map[])
  }

  predicate Holds(s: System, id: Id, p: int) {
    id in s.sessions && s.sessions[id].adbPort == p && p != 0
  }

  /** Used ports are exactly the sessions' ports, one session a port, in range. */
  ghost predicate Conserved(start: int, size: nat, s: System) {
    && (forall p :: p in s.used <==> exists id :: Holds(s, id, p))
    && (forall id, jd, p :: Holds(s, id, p) && Holds(s, jd, p) ==> id == jd)
    && (forall p :: p in s.used ==> start <= p < start + size)
    && (forall id :: id in s.sessions && s.sessions[id].state == Created ==> s.sessions[id].adbPort == 0)
  }

  /** A session takes a free port. */
  lemma TakePort(start: int, size: nat, s: System, t: System, id: Id, p: int)
    requires Conserved(start, size, s) && id in s.sessions && s.sessions[id].adbPort == 0
    requires p != 0 && p !in s.used && start <= p < start + size
    requires t.used == s.used + {p} && id in t.sessions && t.sessions == s.sessions[id := t.sessions[id]]
    requires t.sessions[id].adbPort == p && t.sessions[id].state != Created
    ensures Conserved(start, size, t)
  {
    forall q ensures q in t.used <==> exists jd :: Holds(t, jd, q) {
      if q == p {
        assert Holds(t, id, p);
      } else if q in s.used {
        var jd :| Holds(s, jd, q);
        assert Holds(t, jd, q);
      } else if exists jd :: Holds(t, jd, q) {
        var jd :| Holds(t, jd, q);
        assert Holds(s, jd, q);
      }
    }
    forall jd, kd, q | Holds(t, jd, q) && Holds(t, kd, q) ensures jd == kd {
      assert jd != id ==> Holds(s, jd, q);
      assert kd != id ==> Holds(s, kd, q);
    }
  }

  /** A session gives its port back, if it has one. */
  lemma DropPort(start: int, size: nat, s: System, t: System, id: Id)
    requires Conserved(start, size, s) && id in s.sessions
    requires t.used == s.used - {s.sessions[id].adbPort} && id in t.sessions && t.sessions == s.sessions[id := t.sessions[id]]
    requires s.sessions[id].adbPort == 0 ==> t.used == s.used
    requires t.sessions[id].adbPort == 0
    ensures Conserved(start, size, t)
  {
    forall q ensures q in t.used <==> exists jd :: Holds(t, jd, q) {
      if q in t.used {
        var jd :| Holds(s, jd, q);
        assert Holds(t, jd, q);
      } else if exists jd :: Holds(t, jd, q) {
        var jd :| Holds(t, jd, q);
        assert Holds(s, jd, q);
        assert q == s.sessions[id].adbPort && Holds(s, id, q);
      }
    }
    forall jd, kd, q | Holds(t, jd, q) && Holds(t, kd, q) ensures jd == kd {
      assert Holds(s, jd, q) && Holds(s, kd, q);
    }
  }

  /** A session changes without touching its port. */
  lemma KeepPort(start: int, size: nat, s: System, t: System, id: Id)
    requires Conserved(start, size, s) && t.used == s.used && id in t.sessions && t.sessions == s.sessions[id := t.sessions[id]]
    requires t.sessions[id].adbPort == if id in s.sessions then s.sessions[id].adbPort else 0
    requires t.sessions[id].state == Created ==> t.sessions[id].adbPort == 0
    ensures Conserved(start, size, t)
  {
    forall jd, q ensures Holds(s, jd, q) <==> Holds(t, jd, q) {}
  }

  lemma StepConserves(start: int, size: nat, s: System, step: Step)
    requires start > 0 && Conserved(start, size, s) && Enabled(s, step)
    ensures Conserved(start, size, Next(start, size, s, step))
  {
    var t := Next(start, size, s, step);
    match step
    case StartStep(id, r) =>
      var free := FirstFree(start, size, s.used, 0);
      if free.Some? && r == Succeeds {
        TakePort(start, size, s, t, id, free.value);
      } else {
        if free.Some? { assert s.used + {free.value} - {free.value} == s.used; }
        KeepPort(start, size, s, t, id);
      }
    case ReleaseEnds(id) =>
      if s.sessions[id].adbPort != 0 {
        DropPort(start, size, s, t, id);
      } else {
        KeepPort(start, size, s, t, id);
      }
    case _ => KeepPort(start, size, s, t, step.id);
  }

  /** Port conservation along every run of starts, failures and releases. */
  lemma {:induction false} PortConservation(start: int, size: nat, run: seq<System>, steps: seq<Step>, i: nat)
    requires start > 0 && IsRun(start, size, run, steps) && i <= |steps|
    ensures Conserved(start, size, run[i])
    decreases i
  {
    if i > 0 {
      PortConservation(start, size, run, steps, i - 1);
      StepConserves(start, size, run[i - 1], steps[i - 1]);
    }
  }

  /** A start, exactly, in every run: it succeeds when all its steps do and a port is free,
      and then holds the lowest free port; a start that fails holds no port, and the pool is
      as it was. */
  lemma StartExactly(start: int, size: nat, run: seq<System>, steps: seq<Step>, i: nat)
    requires start > 0 && IsRun(start, size, run, steps) && i < |steps| && steps[i].StartStep?
    ensures var s, t, id := run[i], run[i + 1], steps[i].id;
            var h, free := t.sessions[id], exists p :: start <= p < start + size && p !in s.used;
            && (steps[i].r == Succeeds && free ==>
                  && h.state == Streaming && h.connected
                  && start <= h.adbPort < start + size && h.adbPort !in s.used
                  && (forall p :: start <= p < h.adbPort ==> p in s.used)
                  && t.used == s.used + {h.adbPort})
            && (steps[i].r != Succeeds || !free ==>
                  h.state == Error && !h.connected && h.adbPort == 0 && t.used == s.used)
  {
    var s, id := run[i], steps[i].id;
    PortConservation(start, size, run, steps, i);
    RunChannelled(start, size, run, steps, i);
    assert Enabled(s, steps[i]) && run[i + 1] == Next(start, size, s, steps[i]);
    assert Channelled(s.sessions[id]);
    var found := FirstFree(start, size, s.used, 0);
    if found.Some? { assert s.used + {found.value} - {found.value} == s.used; }
  }

  function Range(start: int, size: nat): (r: set<int>)
    ensures |r| == size && forall p :: p in r <==> start <= p < start + size
  {
    if size == 0 then {} else Range(start, size - 1) + {start + size - 1}
  }

  /** Acquiring fails exactly when all `size` ports are held. */
  lemma AcquireFailsWhenFull(start: int, size: nat, s: System)
    requires Conserved(start, size, s)
    ensures FirstFree(start, size, s.used, 0).None? <==> |s.used| == size
  {
    var all := Range(start, size);
    assert s.used <= all;
    if FirstFree(start, size, s.used, 0).None? {
      assert s.used == all;
    } else {
      var p := FirstFree(start, size, s.used, 0).value;
      assert s.used <= all - {p};
      SubsetSize(s.used, all - {p});
    }
  }

  lemma SubsetSize(a: set<int>, b: set<int>)
    requires a <= b
    ensures |a| <= |b|
  {
    assert b == a + (b - a);
  }

  // ---------------------------------------------------------------------
  // Does Release return?
  // ---------------------------------------------------------------------

  /** Channels are closed by forwarders that ran; the sockets stay opened once they are. */
  ghost predicate Channelled(h: Holding) {
    && h.running + h.closed == (if h.forwarders then WithForwarder(h.audio) else {})
    && h.running !! h.closed
    && (h.forwarders ==> h.connected)
    && (h.releasing ==> h.state == Released)
    && (h.state == Created ==> !h.connected)
  }

  ghost predicate AllChannelled(s: System) {
    forall id :: id in s.sessions ==> Channelled(s.sessions[id])
  }

  lemma StepChannelled(start: int, size: nat, s: System, step: Step)
    requires AllChannelled(s) && Enabled(s, step)
    ensures AllChannelled(Next(start, size, s, step))
  {}

  lemma {:induction false} RunChannelled(start: int, size: nat, run: seq<System>, steps: seq<Step>, i: nat)
    requires IsRun(start, size, run, steps) && i <= |steps|
    ensures AllChannelled(run[i])
    decreases i
  {
    if i > 0 {
      RunChannelled(start, size, run, steps, i - 1);
      StepChannelled(start, size, run[i - 1], steps[i - 1]);
    }
  }

  /** In every run the wait of a Release is over exactly when audio is on, the
      forwarders were started, before or after it, and all of them have returned. */
  lemma DrainExactly(start: int, size: nat, run: seq<System>, steps: seq<Step>, i: nat, id: Id)
    requires IsRun(start, size, run, steps) && i <= |steps|
    requires id in run[i].sessions && run[i].sessions[id].releasing
    ensures var h := run[i].sessions[id];
            DrainEnds(h) <==> h.audio && h.forwarders && h.running == {}
  {
    RunChannelled(start, size, run, steps, i);
    var h := run[i].sessions[id];
    assert Audio in CHANNELS && (!h.audio ==> Audio !in WithForwarder(h.audio));
  }

  /** A Release of this session waits, and no continuation can end it. */
  predicate Hangs(s: System, id: Id) {
    id in s.sessions && s.sessions[id].releasing && !(s.sessions[id].audio && s.sessions[id].connected)
  }

  lemma StepHangs(start: int, size: nat, s: System, step: Step, id: Id)
    requires AllChannelled(s) && Hangs(s, id) && Enabled(s, step)
    ensures Hangs(Next(start, size, s, step), id)
    ensures Next(start, size, s, step).sessions[id].adbPort == s.sessions[id].adbPort
  {
    var h := s.sessions[id];
    assert Audio in CHANNELS && (!h.audio ==> Audio !in WithForwarder(h.audio));
    assert Channelled(h) && !DrainEnds(h);
  }

  lemma {:induction false} HangsForever(start: int, size: nat, run: seq<System>, steps: seq<Step>, i: nat, id: Id)
    requires IsPath(start, size, run, steps) && AllChannelled(run[0]) && Hangs(run[0], id) && i <= |steps|
    ensures AllChannelled(run[i]) && Hangs(run[i], id)
    ensures run[i].sessions[id].adbPort == run[0].sessions[id].adbPort
    decreases i
  {
    if i > 0 {
      HangsForever(start, size, run, steps, i - 1, id);
      StepHangs(start, size, run[i - 1], steps[i - 1], id);
      StepChannelled(start, size, run[i - 1], steps[i - 1]);
    }
  }

  lemma PathAppend(start: int, size: nat, run: seq<System>, steps: seq<Step>, step: Step)
    requires IsPath(start, size, run, steps) && Enabled(run[|steps|], step)
    ensures IsPath(start, size, run + [Next(start, size, run[|steps|], step)], steps + [step])
  {}

  /** The forwarders that still run can all return. */
  lemma {:induction false} ForwardersReturn(start: int, size: nat, run0: seq<System>, steps0: seq<Step>, id: Id)
    returns (run: seq<System>, steps: seq<Step>)
    requires IsPath(start, size, run0, steps0)
    requires AllChannelled(run0[|steps0|]) && id in run0[|steps0|].sessions
    ensures IsPath(start, size, run, steps) && run[0] == run0[0]
    ensures AllChannelled(run[|steps|]) && id in run[|steps|].sessions
    ensures var h, g := run0[|steps0|].sessions[id], run[|steps|].sessions[id];
            g == h.(running := {}, closed := g.closed)
    decreases |run0[|steps0|].sessions[id].running|
  {
    run, steps := run0, steps0;
    var s := run[|steps|];
    if s.sessions[id].running != {} {
      var c :| c in s.sessions[id].running;
      PathAppend(start, size, run, steps, ForwarderEnds(id, c));
      StepChannelled(start, size, s, ForwarderEnds(id, c));
      run, steps := run + [Next(start, size, s, ForwarderEnds(id, c))], steps + [ForwarderEnds(id, c)];
      run, steps := ForwardersReturn(start, size, run, steps, id);
    }
  }

  /** Some continuation lets the waiting Release return. */
  lemma ReleaseCanReturn(start: int, size: nat, s: System, id: Id) returns (run: seq<System>, steps: seq<Step>)
    requires AllChannelled(s) && id in s.sessions && s.sessions[id].releasing && !Hangs(s, id)
    ensures IsPath(start, size, run, steps) && run[0] == s
    ensures id in run[|steps|].sessions
    ensures !run[|steps|].sessions[id].releasing && run[|steps|].sessions[id].adbPort == 0
  {
    PathAppend(start, size, [s], [], Forwarders(id));
    StepChannelled(start, size, s, Forwarders(id));
    run, steps := [s, Next(start, size, s, Forwarders(id))], [Forwarders(id)];
    assert [s] + [run[1]] == run && [] + [Forwarders(id)] == steps;
    run, steps := ForwardersReturn(start, size, run, steps, id);
    var t := run[|steps|];
    assert Channelled(t.sessions[id]);
    assert DrainEnds(t.sessions[id]);
    PathAppend(start, size, run, steps, ReleaseEnds(id));
    run, steps := run + [Next(start, size, t, ReleaseEnds(id))], steps + [ReleaseEnds(id)];
  }

  /** A continuation from s in which the session is released and keeps no port. */
  ghost predicate Returns(start: int, size: nat, s: System, id: Id, run: seq<System>, steps: seq<Step>) {
    && IsPath(start, size, run, steps) && run[0] == s
    && id in run[|steps|].sessions
    && !run[|steps|].sessions[id].releasing && run[|steps|].sessions[id].adbPort == 0
  }

  /** Whether Release ever returns, exactly: a waiting Release can return and give the
      port back if and only if audio is on and the session's sockets were once opened.
      Otherwise it waits forever: with audio off, and after every failed Start. */
  lemma ReleaseReturnsPort(start: int, size: nat, run: seq<System>, steps: seq<Step>, i: nat, id: Id)
    requires IsRun(start, size, run, steps) && i <= |steps|
    requires id in run[i].sessions && run[i].sessions[id].releasing
    ensures (exists run2, steps2 :: Returns(start, size, run[i], id, run2, steps2))
       <==> run[i].sessions[id].audio && run[i].sessions[id].connected
  {
    RunChannelled(start, size, run, steps, i);
    if Hangs(run[i], id) {
      forall run2, steps2 | Returns(start, size, run[i], id, run2, steps2) ensures false {
        HangsForever(start, size, run2, steps2, |steps2|, id);
      }
    } else {
      var run2, steps2 := ReleaseCanReturn(start, size, run[i], id);
      assert Returns(start, size, run[i], id, run2, steps2);
    }
  }

  /** Acquire releases a session whose Start failed, and that call never returns. */
  lemma FailedStartHangs(start: int, size: nat, s: System, id: Id, r: StartResult)
    requires AllChannelled(s) && id in s.sessions && s.sessions[id].state == Created
    requires r != Succeeds || FirstFree(start, size, s.used, 0).None?
    ensures Hangs(Next(start, size, Next(start, size, s, StartStep(id, r)), ReleaseBegins(id)), id)
  {
    assert Channelled(s.sessions[id]);
  }

  /** Why conservation needs start > 0: port 0 is taken for "no port", and a failed start
      in a pool that begins there never returns it. */
  lemma PortZeroLeaks(size: nat) returns (run: seq<System>, steps: seq<Step>)
    requires size > 0
    ensures IsRun(0, size, run, steps) && !Conserved(0, size, run[|steps|])
  {
    var s0 := System({}, map[]);
    var s1 := Next(0, size, s0, New(0, true));
    var s2 := Next(0, size, s1, StartStep(0, ForwardFails));
    run, steps := [s0, s1, s2], [New(0, true), StartStep(0, ForwardFails)];
    assert FirstFree(0, size, {}, 0) == Some(0);
    assert 0 in s2.used && !(exists id :: Holds(s2, id, 0));
  }
}
