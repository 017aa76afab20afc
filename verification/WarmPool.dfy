/** The warm pool: scrcpy sessions kept alive for a while after a disconnect.

  Each step is one section under the manager's lock.  Acquire has two: the lookup,
  and the insertion after a cold start.  A timer callback may run at any time after
  its timer was armed, even when the timer was cancelled in between.
*/
module WarmPool {
  import opened Common

  type Serial = nat
  type Id = nat           // a gateway session

  // A time.Timer; only its identity matters.
  type Timer = nat

  /** An armed timer's call of expireWarm, which is told the serial only. */
  datatype Callback = Callback(serial: Serial, timer: Timer)

  /** `dead` are sessions whose server is gone, `made` counts the timers created.
      History: `inUse` are the sessions acquired and not handed back since, `known` all
      ids ever inserted, `released` the Release calls made by the manager, `starting`
      the cold starts under way, `callbacks` those that may still run. */
  datatype Pool = Pool(
    sessions: map<Serial, Id>,
    timers: map<Serial, Timer>,
    dead: set<Id>,
    inUse: set<Id>,
    known: set<Id>,
    released: seq<Id>,
    starting: multiset<Serial>,
    made: nat,
    callbacks: set<Callback>)

  const Empty := Pool(map[], map[], {}, {}, {}, [], multiset{}, 0, {})

  predicate Usable(p: Pool, serial: Serial) {
    serial in p.sessions && p.sessions[serial] !in p.dead
  }

  /** Forget a serial and release its session. */
  function Drop(p: Pool, serial: Serial): Pool
    requires serial in p.sessions
  {
    p.(sessions := p.sessions - {serial}, timers := p.timers - {serial},
       inUse := p.inUse - {p.sessions[serial]}, released := p.released + [p.sessions[serial]])
  }

  function AcquireLookup(p: Pool, serial: Serial): Pool {
    if Usable(p, serial) then
      p.(timers := p.timers - {serial}, inUse := p.inUse + {p.sessions[serial]})
    else
      (if serial in p.sessions then Drop(p, serial) else p).(starting := p.starting + multiset{serial})
  }

  function AcquireInsert(p: Pool, serial: Serial, id: Id): Pool
    requires serial in p.starting
  {
    p.(sessions := p.sessions[serial := id], inUse := p.inUse + {id}, known := p.known + {id},
       starting := p.starting - multiset{serial})
  }

  function Release(p: Pool, serial: Serial): Pool {
    if serial in p.sessions then Drop(p, serial) else p.(timers := p.timers - {serial})
  }

  function ReleaseDeferred(p: Pool, serial: Serial): Pool {
    if serial !in p.sessions then p
    else if p.sessions[serial] in p.dead then Drop(p, serial)
    else p.(timers := p.timers[serial := p.made], inUse := p.inUse - {p.sessions[serial]},
            made := p.made + 1, callbacks := p.callbacks + {Callback(serial, p.made)})
  }

  /** expireWarm: the map entry goes even when nothing is released. */
  function Expire(p: Pool, serial: Serial): Pool {
    var q := p.(timers := p.timers - {serial}, sessions := p.sessions - {serial});
    if serial in p.timers && serial in p.sessions then q.(released := p.released + [p.sessions[serial]]) else q
  }

  class Manager {
    var sessions: map<Serial, Id>
    var warmTimers: map<Serial, Timer>
    var dead: set<Id>
    var released: seq<Id>
    ghost var inUse: set<Id>
    ghost var known: set<Id>
    ghost var starting: multiset<Serial>
    var made: nat
    ghost var callbacks: set<Callback>

    ghost function Abs(): Pool
      reads this
    {
      Pool(sessions, warmTimers, dead, inUse, known, released, starting, made, callbacks)
    }

    constructor ()
      ensures Abs() == Empty
    {
      sessions, warmTimers, dead, released := map[], map[], {}, [];
      inUse, known, starting, made, callbacks := {}, {}, multiset{}, 0, {};
    }

    method CancelWarmTimer(serial: Serial)
      modifies this`warmTimers
      ensures warmTimers == old(warmTimers) - {serial}
    {
      warmTimers := warmTimers - {serial};
    }

    method ReleaseObject(id: Id)
      modifies this`released, this`inUse
      ensures released == old(released) + [id] && inUse == old(inUse) - {id}
    {
      released := released + [id];
      inUse := inUse - {id};
    }

    /** Acquire up to the cold start; Some means a warm session is reused. */
    method Lookup(serial: Serial) returns (reused: Option<Id>)
      modifies this
      ensures Abs() == AcquireLookup(old(Abs()), serial)
      ensures reused == if Usable(old(Abs()), serial) then Some(old(sessions)[serial]) else None
    {
      if serial in sessions && sessions[serial] !in dead {
        CancelWarmTimer(serial);
        inUse := inUse + {sessions[serial]};
        return Some(sessions[serial]);
      }
      if serial in sessions {
        var stale := sessions[serial];
        sessions := sessions - {serial};
        CancelWarmTimer(serial);
        ReleaseObject(stale);
      }
      starting := starting + multiset{serial};
      return None;
    }

    method Insert(serial: Serial, id: Id)
      requires serial in starting
      modifies this
      ensures Abs() == AcquireInsert(old(Abs()), serial, id)
    {
      sessions := sessions[serial := id];
      inUse, known, starting := inUse + {id}, known + {id}, starting - multiset{serial};
    }

    method ReleaseNow(serial: Serial)
      modifies this
      ensures Abs() == Release(old(Abs()), serial)
    {
      if serial in sessions {
        var s := sessions[serial];
        sessions := sessions - {serial};
        CancelWarmTimer(serial);
        ReleaseObject(s);
      } else {
        CancelWarmTimer(serial);
      }
    }

    method HandBack(serial: Serial)
      modifies this
      ensures Abs() == ReleaseDeferred(old(Abs()), serial)
    {
      if serial !in sessions { return; }
      var s := sessions[serial];
      if s in dead {
        sessions := sessions - {serial};
        CancelWarmTimer(serial);
        ReleaseObject(s);
        return;
      }
      CancelWarmTimer(serial);
      warmTimers := warmTimers[serial := made];
      inUse, callbacks := inUse - {s}, callbacks + {Callback(serial, made)};
      made := made + 1;
      assert warmTimers == old(warmTimers)[serial := old(made)];
    }

    method ExpireWarm(serial: Serial)
      modifies this
      ensures Abs() == Expire(old(Abs()), serial)
    {
      var stillWarm := serial in warmTimers;
      warmTimers := warmTimers - {serial};
      var ok := serial in sessions;
      var s := if ok then sessions[serial] else 0;
      sessions := sessions - {serial};
      if !stillWarm || !ok { return; }
      released := released + [s];
    }
  }

  // ---------------------------------------------------------------------
  // Runs
  // ---------------------------------------------------------------------

  datatype Step =
    | DoLookup(serial: Serial)
    | DoInsert(serial: Serial, id: Id)
    | StartFails(serial: Serial)
    | DoRelease(serial: Serial)
    | DoHandBack(serial: Serial)
    | DoExpire(serial: Serial, timer: Timer)
    | CallbackStopped(serial: Serial, timer: Timer)
    | ServerDies(id: Id)

  predicate Enabled(p: Pool, step: Step) {
    match step
    case DoLookup(_) => true
    case DoInsert(serial, id) => serial in p.starting && id !in p.known
    case StartFails(serial) => serial in p.starting
    case DoRelease(_) => true
    case DoHandBack(_) => true
    case DoExpire(serial, timer) => Callback(serial, timer) in p.callbacks
    case CallbackStopped(serial, timer) =>
      Callback(serial, timer) in p.callbacks && !(serial in p.timers && p.timers[serial] == timer)
    case ServerDies(_) => true
  }

  function Next(p: Pool, step: Step): Pool
    requires Enabled(p, step)
  {
    match step
    case DoLookup(serial) => AcquireLookup(p, serial)
    case DoInsert(serial, id) => AcquireInsert(p, serial, id)
    case StartFails(serial) => p.(starting := p.starting - multiset{serial})
    case DoRelease(serial) => Release(p, serial)
    case DoHandBack(serial) => ReleaseDeferred(p, serial)
    case DoExpire(serial, timer) => Expire(p, serial).(callbacks := p.callbacks - {Callback(serial, timer)})
    case CallbackStopped(serial, timer) => p.(callbacks := p.callbacks - {Callback(serial, timer)})
    case ServerDies(id) => p.(dead := p.dead + {id})
  }

  ghost predicate IsRun(run: seq<Pool>, steps: seq<Step>) {
    && |run| == |steps| + 1 && run[0] == Empty
    && forall i :: 0 <= i < |steps| ==> Enabled(run[i], steps[i]) && run[i + 1] == Next(run[i], steps[i])
  }

  // ---------------------------------------------------------------------
  // Ownership, in every run
  // ---------------------------------------------------------------------

  /** Sessions in the pool are distinct, known, and not yet released; none is
      released twice. */
  ghost predicate Owned(p: Pool) {
    && (forall s :: s in p.sessions ==> p.sessions[s] in p.known && p.sessions[s] !in p.released)
    && (forall s, t :: s in p.sessions && t in p.sessions && p.sessions[s] == p.sessions[t] ==> s == t)
    && (forall i :: 0 <= i < |p.released| ==> p.released[i] in p.known)
    && (forall i, j :: 0 <= i < j < |p.released| ==> p.released[i] != p.released[j])
    && p.inUse <= p.known
  }

  lemma StepOwned(p: Pool, step: Step)
    requires Owned(p) && Enabled(p, step)
    ensures Owned(Next(p, step))
  {}

  lemma {:induction false} RunOwned(run: seq<Pool>, steps: seq<Step>, i: nat)
    requires IsRun(run, steps) && i <= |steps|
    ensures Owned(run[i])
    decreases i
  {
    if i > 0 {
      RunOwned(run, steps, i - 1);
      StepOwned(run[i - 1], steps[i - 1]);
    }
  }

  /** The manager never releases a session twice, and a pooled session was never released. */
  lemma ReleasedOnce(run: seq<Pool>, steps: seq<Step>, i: nat)
    requires IsRun(run, steps) && i <= |steps|
    ensures forall j, k :: 0 <= j < k < |run[i].released| ==> run[i].released[j] != run[i].released[k]
    ensures forall s :: s in run[i].sessions ==> run[i].sessions[s] !in run[i].released
  {
    RunOwned(run, steps, i);
  }

  // ---------------------------------------------------------------------
  // Expiry
  // ---------------------------------------------------------------------

  /** If the serial has a warm timer, it has a session, which nobody uses. */
  predicate Safe(p: Pool, serial: Serial) {
    serial in p.timers ==> serial in p.sessions && p.sessions[serial] !in p.inUse
  }

  /** A started session enters the map under the serial while its timer is pending. */
  predicate InsertsOverTimer(p: Pool, step: Step, serial: Serial) {
    step.DoInsert? && step.serial == serial && serial in p.timers
  }

  /** The one way to make a serial's timer unsafe, exactly. */
  lemma SafetyExactly(p: Pool, step: Step, serial: Serial)
    requires Safe(p, serial) && Owned(p) && Enabled(p, step)
    ensures Safe(Next(p, step), serial) <==> !InsertsOverTimer(p, step, serial)
  {
    match step
    case DoInsert(_, id) => assert serial in p.sessions ==> p.sessions[serial] != id;
    case _ =>
  }

  ghost predicate Calm(run: seq<Pool>, steps: seq<Step>, serial: Serial) {
    IsRun(run, steps) && forall i :: 0 <= i < |steps| ==> !InsertsOverTimer(run[i], steps[i], serial)
  }

  lemma {:induction false} RunSafe(run: seq<Pool>, steps: seq<Step>, i: nat, serial: Serial)
    requires Calm(run, steps, serial) && i <= |steps|
    ensures Safe(run[i], serial)
    decreases i
  {
    if i > 0 {
      RunSafe(run, steps, i - 1, serial);
      RunOwned(run, steps, i - 1);
      SafetyExactly(run[i - 1], steps[i - 1], serial);
    }
  }

  /** Warm expiry safety: for every interleaving, late callbacks included, and whatever
      happens to other serials, what expireWarm releases was handed back and not acquired
      since. */
  lemma ExpirySafety(run: seq<Pool>, steps: seq<Step>, i: nat)
    requires i < |steps| && steps[i].DoExpire? && Calm(run, steps, steps[i].serial)
    ensures var p, q := run[i], run[i + 1];
            (q.released != p.released ==>
                  && steps[i].serial in p.sessions
                  && q.released == p.released + [p.sessions[steps[i].serial]]
                  && p.sessions[steps[i].serial] !in p.inUse)
  {
    RunSafe(run, steps, i, steps[i].serial);
    assert Enabled(run[i], steps[i]) && run[i + 1] == Next(run[i], steps[i]);
  }

  /** A serial's pending timer belongs to a pooled session that nobody uses. */
  lemma TimersBelong(run: seq<Pool>, steps: seq<Step>, i: nat, serial: Serial)
    requires Calm(run, steps, serial) && i <= |steps|
    ensures serial in run[i].timers ==>
              serial in run[i].sessions && run[i].sessions[serial] !in run[i].inUse
  {
    RunSafe(run, steps, i, serial);
  }

  /** Nobody looks the serial up while it is being started. */
  predicate NoOverlap(p: Pool, step: Step, serial: Serial) {
    step == DoLookup(serial) ==> serial !in p.starting
  }

  ghost predicate Sequential(run: seq<Pool>, steps: seq<Step>, serial: Serial) {
    IsRun(run, steps) && forall i :: 0 <= i < |steps| ==> NoOverlap(run[i], steps[i], serial)
  }

  /** A serial being started is started once and has no session yet. */
  predicate Cold(p: Pool, serial: Serial) {
    serial in p.starting ==> p.starting[serial] == 1 && serial !in p.sessions
  }

  lemma StepCold(p: Pool, step: Step, serial: Serial)
    requires Cold(p, serial) && Enabled(p, step) && NoOverlap(p, step, serial)
    ensures Cold(Next(p, step), serial)
  {}

  lemma {:induction false} RunCold(run: seq<Pool>, steps: seq<Step>, i: nat, serial: Serial)
    requires Sequential(run, steps, serial) && i <= |steps|
    ensures Cold(run[i], serial) && Safe(run[i], serial)
    decreases i
  {
    if i > 0 {
      RunCold(run, steps, i - 1, serial);
      RunOwned(run, steps, i - 1);
      StepCold(run[i - 1], steps[i - 1], serial);
      SafetyExactly(run[i - 1], steps[i - 1], serial);
    }
  }

  /** Cold starts of a serial that do not overlap never insert over its timer. */
  lemma SequentialIsCalm(run: seq<Pool>, steps: seq<Step>, serial: Serial)
    requires Sequential(run, steps, serial)
    ensures Calm(run, steps, serial)
  {
    forall i | 0 <= i < |steps| ensures !InsertsOverTimer(run[i], steps[i], serial) {
      RunCold(run, steps, i, serial);
      assert Enabled(run[i], steps[i]);
    }
  }

  // ---------------------------------------------------------------------
  // Expiry in time
  // ---------------------------------------------------------------------

  /** Only the serial's own timer can call back while it is pending.  A callback runs
      when its timer's window has passed, but is told the serial, not the timer. */
  ghost predicate OnTime(p: Pool, serial: Serial) {
    serial in p.timers ==>
      forall c :: c in p.callbacks && c.serial == serial ==> c.timer == p.timers[serial]
  }

  /** Timers are made once. */
  ghost predicate Minted(p: Pool) {
    forall c :: c in p.callbacks ==> c.timer < p.made
  }

  /** A hand-back arms a timer while an earlier callback of the serial may still run. */
  ghost predicate ArmsOverCallback(p: Pool, step: Step, serial: Serial) {
    && step == DoHandBack(serial) && Usable(p, serial)
    && exists c :: c in p.callbacks && c.serial == serial
  }

  /** The one way to let a foreign callback meet a pending timer, exactly. */
  lemma OnTimeExactly(p: Pool, step: Step, serial: Serial)
    requires OnTime(p, serial) && Minted(p) && Enabled(p, step)
    ensures OnTime(Next(p, step), serial) <==> !ArmsOverCallback(p, step, serial)
  {
    var q := Next(p, step);
    if ArmsOverCallback(p, step, serial) {
      var c :| c in p.callbacks && c.serial == serial;
      assert c in q.callbacks && c.timer != q.timers[serial];
    } else if step == DoHandBack(serial) {
      assert q.callbacks == p.callbacks || q.callbacks == p.callbacks + {Callback(serial, p.made)};
    } else {
      assert serial in q.timers ==> serial in p.timers && q.timers[serial] == p.timers[serial];
      assert forall c :: c in q.callbacks && c.serial == serial ==> c in p.callbacks;
    }
  }

  ghost predicate Prompt(run: seq<Pool>, steps: seq<Step>, serial: Serial) {
    IsRun(run, steps) && forall i :: 0 <= i < |steps| ==> !ArmsOverCallback(run[i], steps[i], serial)
  }

  lemma {:induction false} RunOnTime(run: seq<Pool>, steps: seq<Step>, i: nat, serial: Serial)
    requires Prompt(run, steps, serial) && i <= |steps|
    ensures OnTime(run[i], serial) && Minted(run[i])
    decreases i
  {
    if i > 0 {
      RunOnTime(run, steps, i - 1, serial);
      OnTimeExactly(run[i - 1], steps[i - 1], serial);
      assert Enabled(run[i - 1], steps[i - 1]) && run[i] == Next(run[i - 1], steps[i - 1]);
    }
  }

  /** An expiry is never early while no callback of the serial is left over when it is
      handed back: what releases the session is its own timer's callback. */
  lemma NeverEarly(run: seq<Pool>, steps: seq<Step>, i: nat)
    requires i < |steps| && steps[i].DoExpire? && Prompt(run, steps, steps[i].serial)
    requires run[i + 1].released != run[i].released
    ensures steps[i].serial in run[i].timers && run[i].timers[steps[i].serial] == steps[i].timer
  {
    RunOnTime(run, steps, i, steps[i].serial);
    assert Enabled(run[i], steps[i]) && run[i + 1] == Next(run[i], steps[i]);
    assert Callback(steps[i].serial, steps[i].timer) in run[i].callbacks;
  }

  /** What an expiring callback does to a serial's session, exactly: it releases it
      when its timer is still there, and otherwise loses track of it. */
  lemma ExpireOutcome(p: Pool, serial: Serial)
    requires Safe(p, serial) && Owned(p) && serial in p.sessions
    ensures var id, q := p.sessions[serial], Expire(p, serial);
            && id !in q.sessions.Values
            && (id in q.released <==> serial in p.timers)
            && (id in p.inUse ==> id !in q.released)
  {
    var q := Expire(p, serial);
    assert forall t :: t in q.sessions ==> t in p.sessions && q.sessions[t] != p.sessions[serial];
  }

  /** A callback that runs after its timer was cancelled orphans the session in use:
      it is in no map any more, so handing it back does nothing, and the next
      acquisition starts a second server. */
  lemma LateCallbackOrphans() returns (run: seq<Pool>, steps: seq<Step>)
    ensures Sequential(run, steps, 7)
    ensures var p := run[|steps|];
            p.sessions == map[] && p.inUse == {0} && p.released == []
            && ReleaseDeferred(p, 7) == p && !Usable(p, 7)
  {
    run, steps := Reacquired();
    run, steps := Extend(run, steps, DoExpire(7, 0));
    assert run[|steps|].sessions == map[];
  }

  lemma Extend(run: seq<Pool>, steps: seq<Step>, step: Step) returns (run2: seq<Pool>, steps2: seq<Step>)
    requires IsRun(run, steps) && Enabled(run[|steps|], step)
    ensures run2 == run + [Next(run[|steps|], step)] && steps2 == steps + [step] && IsRun(run2, steps2)
    ensures Sequential(run, steps, 7) && NoOverlap(run[|steps|], step, 7) ==> Sequential(run2, steps2, 7)
  {
    run2, steps2 := run + [Next(run[|steps|], step)], steps + [step];
  }

  /** A session handed back and acquired again; its first timer was cancelled, but the
      callback is on its way. */
  lemma Reacquired() returns (run: seq<Pool>, steps: seq<Step>)
    ensures Sequential(run, steps, 7)
    ensures run[|steps|] == Pool(map[7 := 0], map[], {}, {0}, {0}, [], multiset{}, 1, {Callback(7, 0)})
  {
    assert Sequential([Empty], [], 7);
    run, steps := Extend([Empty], [], DoLookup(7));
    assert run[|steps|] == Empty.(starting := multiset{7});
    run, steps := Extend(run, steps, DoInsert(7, 0));
    assert run[|steps|] == Pool(map[7 := 0], map[], {}, {0}, {0}, [], multiset{}, 0, {});
    run, steps := Extend(run, steps, DoHandBack(7));
    assert run[|steps|] == Pool(map[7 := 0], map[7 := 0], {}, {}, {0}, [], multiset{}, 1, {Callback(7, 0)});
    run, steps := Extend(run, steps, DoLookup(7));
  }

  /** A callback left over from an earlier hand-back finds the new timer and releases the
      session before its own window has passed. */
  lemma EarlyExpiry() returns (run: seq<Pool>, steps: seq<Step>)
    ensures Sequential(run, steps, 7) && steps != [] && steps[|steps| - 1] == DoExpire(7, 0)
    ensures run[|steps| - 1].timers == map[7 := 1] && Callback(7, 1) in run[|steps| - 1].callbacks
    ensures run[|steps| - 1].released == [] && run[|steps|].released == [0]
  {
    run, steps := Reacquired();
    run, steps := Extend(run, steps, DoHandBack(7));
    assert run[|steps|] == Pool(map[7 := 0], map[7 := 1], {}, {}, {0}, [], multiset{}, 2, {Callback(7, 0), Callback(7, 1)});
    run, steps := Extend(run, steps, DoExpire(7, 0));
  }

  /** An insertion over a timer does happen: of two overlapping cold starts the second
      session inherits the first one's timer and is released while in use. */
  lemma OverlapBreaksSafety() returns (run: seq<Pool>, steps: seq<Step>)
    ensures IsRun(run, steps) && |steps| > 0 && steps[|steps| - 1].DoExpire?
    ensures run[|steps|].released == [1] && 1 in run[|steps| - 1].inUse
  {
    run, steps := TwoColdStarts();
    run, steps := Extend(run, steps, DoHandBack(7));
    assert run[|steps|] == Pool(map[7 := 0], map[7 := 0], {}, {}, {0}, [], multiset{7}, 1, {Callback(7, 0)});
    run, steps := Extend(run, steps, DoInsert(7, 1));
    assert run[|steps|].sessions == map[7 := 1] && run[|steps|].inUse == {1} && run[|steps|].timers == map[7 := 0];
    run, steps := Extend(run, steps, DoExpire(7, 0));
  }

  lemma TwoColdStarts() returns (run: seq<Pool>, steps: seq<Step>)
    ensures IsRun(run, steps)
    ensures run[|steps|] == Pool(map[7 := 0], map[], {}, {0}, {0}, [], multiset{7}, 0, {})
  {
    run, steps := Extend([Empty], [], DoLookup(7));
    run, steps := Extend(run, steps, DoLookup(7));
    assert run[|steps|] == Empty.(starting := multiset{7, 7});
    run, steps := Extend(run, steps, DoInsert(7, 0));
  }
}
