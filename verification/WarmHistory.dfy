/** What the warm pool holds and releases, told from the calls alone. */
module WarmHistory {
  import opened Common
  import opened WarmPool

  predicate Died(steps: seq<Step>, id: Id) {
    ServerDies(id) in steps
  }

  /** The session kept for a serial: the one inserted last, until it is released, expired,
      or found dead by a lookup or a hand-back. */
  function Kept(steps: seq<Step>, serial: Serial): Option<Id> {
    if steps == [] then None
    else
      var n := |steps| - 1;
      var earlier := Kept(steps[..n], serial);
      match steps[n]
      case DoInsert(s, id) => if s == serial then Some(id) else earlier
      case DoRelease(s) => if s == serial then None else earlier
      case DoExpire(s, _) => if s == serial then None else earlier
      case DoLookup(s) => if s == serial && earlier.Some? && Died(steps[..n], earlier.value) then None else earlier
      case DoHandBack(s) => if s == serial && earlier.Some? && Died(steps[..n], earlier.value) then None else earlier
      case _ => earlier
  }

  /** How many timers were made: one for each hand-back of a living session. */
  function Made(steps: seq<Step>): nat {
    if steps == [] then 0
    else
      var n := |steps| - 1;
      Made(steps[..n]) + if Arms(steps[..n], steps[n]) then 1 else 0
  }

  predicate Arms(steps: seq<Step>, step: Step) {
    step.DoHandBack? && Kept(steps, step.serial).Some? && !Died(steps, Kept(steps, step.serial).value)
  }

  /** A serial's timer is pending from the hand-back of its living session until the next
      lookup that finds a session, release, expiry, or hand-back of a dead session. */
  function Warm(steps: seq<Step>, serial: Serial): Option<Timer> {
    if steps == [] then None
    else
      var n := |steps| - 1;
      var earlier, kept := Warm(steps[..n], serial), Kept(steps[..n], serial);
      match steps[n]
      case DoHandBack(s) =>
        if s != serial || kept.None? then earlier
        else if Died(steps[..n], kept.value) then None
        else Some(Made(steps[..n]))
      case DoLookup(s) => if s == serial && kept.Some? then None else earlier
      case DoRelease(s) => if s == serial then None else earlier
      case DoExpire(s, _) => if s == serial then None else earlier
      case _ => earlier
  }

  /** A timer's callback may still run: it was armed, and has neither run nor been
      stopped since. */
  predicate MayCall(steps: seq<Step>, c: Callback) {
    steps != [] &&
    (var n := |steps| - 1;
     if Arms(steps[..n], steps[n]) && c == Callback(steps[n].serial, Made(steps[..n])) then true
     else if steps[n] == DoExpire(c.serial, c.timer) || steps[n] == CallbackStopped(c.serial, c.timer) then false
     else MayCall(steps[..n], c))
  }

  /** A session is in use from its insertion, and from every lookup that reuses it, until
      it is handed back, released or found dead. */
  predicate Used(steps: seq<Step>, id: Id) {
    steps != [] &&
    (var n := |steps| - 1;
     var done := steps[..n];
     match steps[n]
     case DoInsert(_, i) => i == id || Used(done, id)
     case DoLookup(s) => if Kept(done, s) == Some(id) then !Died(done, id) else Used(done, id)
     case DoHandBack(s) => Kept(done, s) != Some(id) && Used(done, id)
     case DoRelease(s) => Kept(done, s) != Some(id) && Used(done, id)
     case _ => Used(done, id))
  }

  /** The cold starts of a serial under way: begun by lookups that reuse nothing, ended by
      an insertion or a failure. */
  function Starting(steps: seq<Step>, serial: Serial): int {
    if steps == [] then 0
    else
      var n := |steps| - 1;
      var done := steps[..n];
      Starting(done, serial) +
      match steps[n]
      case DoLookup(s) =>
        if s == serial && (Kept(done, s).None? || Died(done, Kept(done, s).value)) then 1 else 0
      case DoInsert(s, _) => if s == serial then -1 else 0
      case StartFails(s) => if s == serial then -1 else 0
      case _ => 0
  }

  ghost predicate Inserted(steps: seq<Step>, id: Id) {
    exists i :: 0 <= i < |steps| && steps[i].DoInsert? && steps[i].id == id
  }

  /** The sessions released: a kept one by every release, by an expiry while its serial is
      warm, and by a lookup or hand-back that finds it dead. */
  function Released(steps: seq<Step>): seq<Id> {
    if steps == [] then []
    else
      var n := |steps| - 1;
      var done := steps[..n];
      Released(done) +
      match steps[n]
      case DoRelease(s) => if Kept(done, s).Some? then [Kept(done, s).value] else []
      case DoExpire(s, _) => if Kept(done, s).Some? && Warm(done, s).Some? then [Kept(done, s).value] else []
      case DoLookup(s) => if Kept(done, s).Some? && Died(done, Kept(done, s).value) then [Kept(done, s).value] else []
      case DoHandBack(s) => if Kept(done, s).Some? && Died(done, Kept(done, s).value) then [Kept(done, s).value] else []
      case _ => []
  }

  ghost predicate Matches(p: Pool, steps: seq<Step>, serial: Serial) {
    && (serial in p.sessions <==> Kept(steps, serial).Some?)
    && (serial in p.sessions ==> p.sessions[serial] == Kept(steps, serial).value)
    && (serial in p.timers <==> Warm(steps, serial).Some?)
    && (serial in p.timers ==> p.timers[serial] == Warm(steps, serial).value)
    && p.starting[serial] == Starting(steps, serial)
  }

  ghost predicate Knows(p: Pool, steps: seq<Step>, id: Id) {
    && (id in p.dead <==> Died(steps, id))
    && (id in p.inUse <==> Used(steps, id))
    && (id in p.known <==> Inserted(steps, id))
  }

  ghost predicate AllMatch(p: Pool, steps: seq<Step>) {
    && (forall serial :: Matches(p, steps, serial))
    && (forall id :: Knows(p, steps, id))
    && (forall c :: c in p.callbacks <==> MayCall(steps, c))
    && p.released == Released(steps) && p.made == Made(steps)
  }

  lemma StepMatches(p: Pool, steps: seq<Step>, step: Step, serial: Serial)
    requires AllMatch(p, steps) && Enabled(p, step)
    ensures Matches(Next(p, step), steps + [step], serial)
  {
    assert (steps + [step])[..|steps|] == steps;
    assert Matches(p, steps, serial);
    if serial in p.sessions { assert Knows(p, steps, p.sessions[serial]); }
  }

  lemma StepReleases(p: Pool, steps: seq<Step>, step: Step)
    requires AllMatch(p, steps) && Enabled(p, step)
    ensures Next(p, step).released == Released(steps + [step]) && Next(p, step).made == Made(steps + [step])
  {
    assert (steps + [step])[..|steps|] == steps;
    assert Released(steps) + [] == Released(steps);
    match step
    case DoLookup(s) => Sees(p, steps, s);
    case DoRelease(s) => Sees(p, steps, s);
    case DoHandBack(s) => Sees(p, steps, s);
    case DoExpire(s, _) => Sees(p, steps, s);
    case _ =>
  }

  /** The session of a serial, as its history tells it. */
  lemma Sees(p: Pool, steps: seq<Step>, serial: Serial)
    requires AllMatch(p, steps)
    ensures Matches(p, steps, serial)
    ensures serial in p.sessions ==> (p.sessions[serial] in p.dead <==> Died(steps, p.sessions[serial]))
  {
    if serial in p.sessions { assert Knows(p, steps, p.sessions[serial]); }
  }

  lemma StepKnows(p: Pool, steps: seq<Step>, step: Step, id: Id)
    requires AllMatch(p, steps) && Enabled(p, step)
    ensures Knows(Next(p, step), steps + [step], id)
  {
    assert (steps + [step])[..|steps|] == steps;
    assert Knows(p, steps, id);
    match step
    case DoLookup(s) => Sees(p, steps, s);
    case DoRelease(s) => Sees(p, steps, s);
    case DoHandBack(s) => Sees(p, steps, s);
    case _ =>
  }

  lemma StepCalls(p: Pool, steps: seq<Step>, step: Step, c: Callback)
    requires AllMatch(p, steps) && Enabled(p, step)
    ensures c in Next(p, step).callbacks <==> MayCall(steps + [step], c)
  {
    assert (steps + [step])[..|steps|] == steps;
    match step
    case DoHandBack(s) => Sees(p, steps, s);
    case _ =>
  }

  lemma StepAllMatch(p: Pool, steps: seq<Step>, step: Step)
    requires AllMatch(p, steps) && Enabled(p, step)
    ensures AllMatch(Next(p, step), steps + [step])
  {
    forall serial ensures Matches(Next(p, step), steps + [step], serial) { StepMatches(p, steps, step, serial); }
    forall id ensures Knows(Next(p, step), steps + [step], id) { StepKnows(p, steps, step, id); }
    forall c ensures c in Next(p, step).callbacks <==> MayCall(steps + [step], c) { StepCalls(p, steps, step, c); }
    StepReleases(p, steps, step);
  }

  lemma {:induction false} RunMatches(run: seq<Pool>, steps: seq<Step>, i: nat)
    requires IsRun(run, steps) && i <= |steps|
    ensures AllMatch(run[i], steps[..i])
    decreases i
  {
    if i > 0 {
      RunMatches(run, steps, i - 1);
      assert Enabled(run[i - 1], steps[i - 1]) && run[i] == Next(run[i - 1], steps[i - 1]);
      StepAllMatch(run[i - 1], steps[..i - 1], steps[i - 1]);
      assert steps[..i] == steps[..i - 1] + [steps[i - 1]];
    }
  }

  /** The pool is its history, over every run: which session a serial has, which timer of
      its is pending, what has been released, which sessions are in use, and which
      callbacks may still run. */
  lemma HistoryDecides(run: seq<Pool>, steps: seq<Step>, i: nat, serial: Serial, id: Id, c: Callback)
    requires IsRun(run, steps) && i <= |steps|
    ensures var p, done := run[i], steps[..i];
            && (if serial in p.sessions then Some(p.sessions[serial]) else None) == Kept(done, serial)
            && (if serial in p.timers then Some(p.timers[serial]) else None) == Warm(done, serial)
            && p.released == Released(done)
            && (id in p.inUse <==> Used(done, id))
            && (c in p.callbacks <==> MayCall(done, c))
  {
    RunMatches(run, steps, i);
    assert Matches(run[i], steps[..i], serial) && Knows(run[i], steps[..i], id);
  }

  /** What can happen next, told from the calls: a cold start under way ends with a new
      session or fails, a callback runs while it may, and is stopped for good only when
      its timer is no longer the pending one; everything else can happen at any time. */
  lemma HistoryEnables(run: seq<Pool>, steps: seq<Step>, i: nat, step: Step)
    requires IsRun(run, steps) && i <= |steps|
    ensures var done := steps[..i];
            Enabled(run[i], step) <==>
              match step
              case DoInsert(serial, id) => Starting(done, serial) > 0 && !Inserted(done, id)
              case StartFails(serial) => Starting(done, serial) > 0
              case DoExpire(serial, timer) => MayCall(done, Callback(serial, timer))
              case CallbackStopped(serial, timer) =>
                MayCall(done, Callback(serial, timer)) && Warm(done, serial) != Some(timer)
              case _ => true
  {
    RunMatches(run, steps, i);
    match step
    case DoInsert(serial, id) => assert Matches(run[i], steps[..i], serial) && Knows(run[i], steps[..i], id);
    case StartFails(serial) => assert Matches(run[i], steps[..i], serial);
    case CallbackStopped(serial, _) => assert Matches(run[i], steps[..i], serial);
    case _ =>
  }

  /** A lookup reuses the kept session exactly when it is alive, cancelling its timer and
      putting it in use; otherwise it begins a cold start. */
  lemma LookupReuses(run: seq<Pool>, steps: seq<Step>, i: nat)
    requires IsRun(run, steps) && i < |steps| && steps[i].DoLookup?
    ensures var p, q, serial, kept := run[i], run[i + 1], steps[i].serial, Kept(steps[..i], steps[i].serial);
            && (kept.Some? && !Died(steps[..i], kept.value) ==>
                  && serial in q.sessions && q.sessions[serial] == kept.value && kept.value in q.inUse
                  && serial !in q.timers && q.starting == p.starting && q.released == p.released)
            && (kept.None? || Died(steps[..i], kept.value) ==>
                  serial !in q.sessions && q.starting == p.starting + multiset{serial})
  {
    RunMatches(run, steps, i);
    Sees(run[i], steps[..i], steps[i].serial);
    assert run[i + 1] == Next(run[i], steps[i]);
  }
}
