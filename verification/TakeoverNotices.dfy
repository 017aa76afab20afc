/** Who is told of a takeover: the `preempted` notice, and what a dropped link does to it. */
module TakeoverNotices {
  import opened Common
  import opened TakeoverSpec
  import opened TakeoverSystem
  import opened Takeover
  import opened TakeoverClaims

  /** While the link is up, a connection that has not left is in the server's table
      or was told why not. */
  ghost predicate ToldOk(s: System) {
    && s.browserSessions <= s.phases.Keys
    && (forall id :: Told(s, id) ==> id in s.phases && id !in s.browserSessions)
    && (s.linkUp ==> forall id :: InPhase(s, id, Entered) || InPhase(s, id, Reading) ==>
                       id in s.browserSessions || Told(s, id))
  }

  lemma StepTold(s: System, step: Step)
    requires ToldOk(s) && Enabled(s, step)
    ensures ToldOk(Next(s, step))
  {
    var t := Next(s, step);
    forall id | t.linkUp && (InPhase(t, id, Entered) || InPhase(t, id, Reading))
      ensures id in t.browserSessions || Told(t, id)
    {
      assert (step.Connect? && step.id == id) || InPhase(s, id, Entered) || InPhase(s, id, Reading);
    }
  }

  lemma {:induction false} RunTold(run: seq<System>, steps: seq<Step>, i: nat)
    requires IsRun(run, steps) && i <= |steps|
    ensures ToldOk(run[i])
    decreases i
  {
    if i > 0 {
      RunTold(run, steps, i - 1);
      assert run[i] == Next(run[i - 1], steps[i - 1]);
      StepTold(run[i - 1], steps[i - 1]);
    }
  }

  /** The connection's session is registered and nobody is force-closing it. */
  predicate Holds(a: Agent, id: SessionId) {
    id in a.sessions && id !in a.closing
  }

  /** While the link is up a browser loses the device exactly when it is told, unless a
      harmful message of its own was handled: its `preempted` is on the way, or it has
      had it, exactly when its session was started and it holds it no longer.  Nothing
      that others forge can cost it the notice. */
  lemma OustedIsTold(run: seq<System>, steps: seq<Step>, i: nat, id: SessionId)
    requires HarmlessRunFor(run, steps, id) && i <= |steps| && InPhase(run[i], id, Reading) && run[i].linkUp
    ensures Preempted(id) in run[i].toServer || Told(run[i], id)
       <==> Starts(run[i].agent.events, id) > 0 && !Holds(run[i].agent, id)
  {
    RunShares(run, steps, i, id);
    RunTold(run, steps, i);
  }

  /** Without a link nothing is read any more. */
  lemma {:induction false} ToldFrozen(run: seq<System>, steps: seq<Step>, k: nat, i: nat)
    requires IsRun(run, steps) && k < i <= |steps| && steps[k].LinkDown?
    ensures !run[i].linkUp && run[i].toServer == [] && run[i].written == run[k].written
    decreases i
  {
    if i > k + 1 { ToldFrozen(run, steps, k, i - 1); }
    assert Enabled(run[i - 1], steps[i - 1]) && run[i] == Next(run[i - 1], steps[i - 1]);
  }

  /** A dropped link, exactly: a connected browser whose session was started is never
      told if and only if it still held the device, or its notice was on the way and
      the server had not read one yet. */
  lemma LinkDropLosesNotice(run: seq<System>, steps: seq<Step>, k: nat, i: nat, id: SessionId)
    requires HarmlessRunFor(run, steps, id) && k < i <= |steps| && steps[k].LinkDown?
    requires InPhase(run[k], id, Reading) && Starts(run[k].agent.events, id) > 0
    ensures !Told(run[i], id) <==>
              Holds(run[k].agent, id) || (Preempted(id) in run[k].toServer && id in run[k].browserSessions)
  {
    assert Enabled(run[k], steps[k]);
    ToldFrozen(run, steps, k, i);
    RunTold(run, steps, k);
    RunShares(run, steps, k, id);
    OustedIsTold(run, steps, k, id);
  }

  /** The notice can be lost: the link drops while `preempted` is on the way, and the
      ousted browser sees only a closed socket. */
  lemma NoticeLost() returns (run: seq<System>, steps: seq<Step>)
    ensures HonestRun(run, steps)
    ensures var s := run[|steps|];
            InPhase(s, 0, Reading) && Starts(s.agent.events, 0) == 1 && 0 !in s.agent.sessions
            && Preempted(0) !in s.toServer && 0 !in s.browserSessions && !Told(s, 0)
  {
    run, steps := FirstSession();
    var b := TakenOver(Holding.agent);
    run, steps := Arrive(run, steps, 1);
    assert multiset([1]) == multiset(run[|steps|].agent.sessions.Keys);
    ShutdownStarts(run[|steps|].agent);
    run, steps := Extend(run, steps, LinkDown([1]));
  }

  lemma ShutdownStarts(a: Agent)
    requires a.sessions == map[1 := false]
    ensures Starts(Shutdown(a, [1]).events, 0) == Starts(a.events, 0)
  {
    assert [1][..0] == [] && NoteOverlaps(a, []) == a;
    assert StopEvents([1]) == [Stopped(1, AgentStop)];
    CountAppend(a.events, Stopped(1, AgentStop), 0);
  }
}
