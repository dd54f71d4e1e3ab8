/**
 What each step of the supervisor does, told from the state, the processes and
 the calls alone (internal/mc/instance.go:156-467).
 */
module SupervisorSteps {
  import opened Prelude
  import opened Windows
  import opened Supervisor

  /** Some process is held, and then it is the newest. */
  predicate HoldsNewest(s: Sys) { s.procs != [] && Held(s.procs[|s.procs| - 1]) }

  /** The newest process is marked as asked to go, and one more call waits on it. */
  predicate AsksNewest(s: Sys, t: Sys, phase: Phase) {
    && s.procs != []
    && t.procs == s.procs[|s.procs| - 1 := s.procs[|s.procs| - 1].(requested := true)]
    && t.calls == s.calls + [Call(|s.procs| - 1, phase)]
    && t.clock == s.clock
  }

  /** Stop acts exactly on a starting or running server; in any other state it changes nothing. */
  lemma StopActs(s: Sys)
    requires Inv(s)
    ensures var t := Next(s, StopCalled);
            if s.inst.state.Starting? || s.inst.state.Running? then
              AsksNewest(s, t, Graceful) && t.inst == s.inst.(state := Stopping, stopRequested := true)
            else t == s
  {
    if s.inst.proc.Some? {
      assert Held(s.procs[s.inst.proc.value]);
    }
  }

  /** Kill acts exactly while a process is held, and leaves the state to the exit. */
  lemma KillActs(s: Sys)
    requires Inv(s)
    ensures var t := Next(s, KillCalled);
            if HoldsNewest(s) then
              AsksNewest(s, t, Killing) && t.inst == s.inst.(stopRequested := true)
            else t == s
    ensures HoldsNewest(s) <==> s.inst.state.Starting? || s.inst.state.Running? || s.inst.state.Stopping?
  {
    if s.inst.proc.Some? {
      assert Held(s.procs[s.inst.proc.value]);
    }
    if HoldsNewest(s) {
      assert s.inst.proc == Some(|s.procs| - 1);
    }
  }

  /** A Stop call waits longer twice: first for the interrupted process, then for the killed one. */
  lemma TimeoutsEscalate(s: Sys, c: nat)
    requires c < |s.calls| && s.calls[c].phase.Graceful?
    ensures Enabled(s, CallTimesOut(c))
    ensures var t := Next(s, CallTimesOut(c));
            && t == s.(calls := s.calls[c := s.calls[c].(phase := Interrupted)])
            && Enabled(t, CallTimesOut(c))
            && var u := Next(t, CallTimesOut(c));
               u == s.(calls := s.calls[c := s.calls[c].(phase := Killing)]) && !Enabled(u, CallTimesOut(c))
  {
    var t := Next(s, CallTimesOut(c));
    assert t.calls[c := t.calls[c].(phase := Killing)] == s.calls[c := s.calls[c].(phase := Killing)];
  }

  /**
   Start launches one more process exactly from an idle state with everything in
   place, and otherwise changes nothing.
   */
  lemma StartActs(s: Sys, ready: bool)
    ensures var t := Next(s, StartCalled(ready));
            if ready && (s.inst.state.Stopped? || s.inst.state.Crashed?) then
              && t.procs == s.procs + [Process(Alive, InWait, false, false)]
              && t.inst == s.inst.(state := Starting, proc := Some(|s.procs|), exited := |s.procs|,
                                   stopRequested := false, lastExit := NotExited, players := {})
              && t.clock == s.clock && t.calls == s.calls
            else t == s
  {
  }

  /** An automatic restart that is due does what Start does. */
  lemma RestartActs(s: Sys, g: Gen, ready: bool)
    requires Enabled(s, RestartFires(g, ready))
    ensures s.procs[g].waiter.Sleeping? && s.procs[g].waiter.until <= s.clock
    ensures Next(s, RestartFires(g, ready))
         == Next(s.(procs := s.procs[g := s.procs[g].(waiter := Finished)]), StartCalled(ready))
  {
  }

  /**
   An exit is followed by a restart exactly if it was a crash, the server is
   configured for it and fewer than three restarts were recorded in the last ten
   minutes; the restart is due ten seconds later. Nothing else changes.
   */
  lemma ExitActs(s: Sys, g: Gen, lag: nat)
    requires Inv(s) && Enabled(s, ExitHandled(g, lag))
    ensures var t := Next(s, ExitHandled(g, lag));
            var again := t.inst.state.Crashed? && s.inst.autoRestart &&
                         |set k | 0 <= k < |s.inst.restartTimes| && s.inst.restartTimes[k] > s.clock - 600_000| < 3;
            && t.clock == s.clock + lag && t.calls == s.calls && |t.procs| == |s.procs|
            && t.procs[g] == s.procs[g].(recorded := again,
                                         waiter := if again then Sleeping(t.clock + 10_000) else Finished)
            && (forall h: nat :: h < |s.procs| && h != g ==> t.procs[h] == s.procs[h])
            && t.inst == s.inst.(state := t.inst.state, lastExit := if t.inst.state.Crashed? then Crash else Clean,
                                 proc := None, players := {}, restartTimes := t.inst.restartTimes)
  {
    CountAfterIsCardinality(s.inst.restartTimes, s.clock - 600_000);
  }

  /** The names a line tells, and that a line which is not announced changes nothing. */
  lemma LineActs(i: Inst, l: Line)
    ensures var (t, changed) := LineBlock(i, l);
            && (changed <==> t.state != i.state || (i.state.Starting? && l.done) || (i.state.Running? && l.stopping)
                             || l.version.Some? || l.software.Some? || l.joined.Some? || l.left.Some?)
            && (!changed ==> t == i)
            && (l.version.Some? ==> t.version == l.version.value)
            && (l.version.None? ==> t.version == i.version)
            && (l.software.Some? ==> t.software == l.software.value)
            && (l.software.None? && l.version.Some? ==> t.software == "Vanilla")
            && (l.software.None? && l.version.None? ==> t.software == i.software)
  {
  }

  /** The exit of a process, and what the waiting goroutines then do. */
  function ExitRun(g: Gen, c: nat, failed: bool, lag: nat): seq<Event> {
    [ChildExits(g, failed), WaitReturns(g), CallReturns(c), ExitHandled(g, lag)]
  }

  lemma RequestedExitEndsStopped(s: Sys, g: Gen, c: nat, failed: bool, lag: nat) returns (t: Sys)
    requires s.inst.stopRequested && g < |s.procs| && s.procs[g].child.Alive? && s.procs[g].waiter.InWait?
    requires c < |s.calls| && s.calls[c].gen == g && !s.calls[c].phase.Returned?
    ensures && Reaches(s, ExitRun(g, c, failed, lag), t)
            && t.inst.state.Stopped? && t.inst.lastExit.Clean? && t.inst.restartTimes == s.inst.restartTimes
            && |t.procs| == |s.procs| && t.procs[g].child == Reaped(failed) && t.procs[g].waiter.Finished?
            && t.calls == s.calls[c := Call(g, Returned)]
  {
    var s1 := Next(s, ChildExits(g, failed));
    var s2 := Next(s1, WaitReturns(g));
    var s3 := Next(s2, CallReturns(c));
    t := Next(s3, ExitHandled(g, lag));
    Prepend(s3, ExitHandled(g, lag), [], t);
    Prepend(s2, CallReturns(c), [ExitHandled(g, lag)], t);
    Prepend(s1, WaitReturns(g), [CallReturns(c), ExitHandled(g, lag)], t);
    Prepend(s, ChildExits(g, failed), [WaitReturns(g), CallReturns(c), ExitHandled(g, lag)], t);
  }

  /**
   A server that starts or runs and is asked to stop ends as stopped, however its
   process dies: no restart is recorded, and the call that asked has returned.
   */
  lemma StopEndsStopped(s: Sys, failed: bool, lag: nat) returns (t: Sys)
    requires Inv(s) && (s.inst.state.Starting? || s.inst.state.Running?)
    requires s.procs != [] && s.procs[|s.procs| - 1].child.Alive?
    ensures var g := |s.procs| - 1;
            && Reaches(s, [StopCalled] + ExitRun(g, |s.calls|, failed, lag), t)
            && t.inst.state.Stopped? && t.inst.lastExit.Clean? && t.inst.restartTimes == s.inst.restartTimes
            && |t.procs| == |s.procs| && t.procs[g].child == Reaped(failed) && t.procs[g].waiter.Finished?
            && t.calls == s.calls + [Call(g, Returned)]
  {
    var g, c := |s.procs| - 1, |s.calls|;
    assert s.procs[g].waiter.InWait? by {
      KillActs(s);
    }
    StopActs(s);
    var stopping := Next(s, StopCalled);
    t := RequestedExitEndsStopped(stopping, g, c, failed, lag);
    Prepend(s, StopCalled, ExitRun(g, c, failed, lag), t);
  }
}
