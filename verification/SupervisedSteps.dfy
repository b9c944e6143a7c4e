/** Every stretch of supervisor code keeps the component invariant. */
module SupervisedSteps {
  import opened Wrappers
  import opened SupervisedComponent

  lemma LastOf(ts: seq<Task>, t: Task)
    ensures Last(ts + [t]) == t && Init(ts + [t]) == ts
  {
  }

  /** A launch keeps the invariant exactly when no late cleanup waits for a callback that is
      done. */
  lemma LaunchInv(c: Component, kind: Kind, purpose: Purpose, started: bool)
    requires ComponentInv(c, started) && c.wait.None? && !InFlight(c)
    requires kind == Start ==> started && !Live(c.tasks)
    requires purpose == ToStart <==> kind == Start
    requires purpose != ToShutDown ==> c.stableSince.None? && started
    ensures ComponentInv(Launch(c, kind, purpose), started) <==> Settled(c)
  {
    LastOf(c.tasks, Task(kind, None, false));
    var d := Launch(c, kind, purpose);
    assert OneInFlight(d.tasks);
  }

  lemma CancelPendingInv(c: Component, started: bool)
    requires ComponentInv(c, started)
    ensures ComponentInv(CancelPending(c), started)
  {
  }

  lemma ScheduleInv(c: Component, i: Input, started: bool)
    requires ComponentInv(c, started)
    ensures ComponentInv(ScheduleRetry(c, i), started)
  {
  }

  lemma TryStartInv(c: Component, i: Input, started: bool)
    requires ComponentInv(c, started) && Quiet(c) && started
    ensures ComponentInv(TryStart(c, i), started) <==> LaunchedSettled(c, TryStart(c, i))
  {
    if InFlight(c) {
      CancelPendingInv(c, started);
      ScheduleInv(CancelPending(c), i, started);
    } else if c.needsCleanup {
      LaunchInv(c, Stop, ToClean, started);
    } else {
      LaunchInv(c, Start, ToStart, started);
    }
  }

  lemma ShutDownInv(c: Component, started: bool)
    requires ComponentInv(c, started) && c.wait.None?
    ensures ComponentInv(ShutDown(c), started) <==> LaunchedSettled(c, ShutDown(c))
    ensures ShutDown(c).wait.None? ==> Quiet(ShutDown(c))
  {
    if InFlight(c) {
      CancelPendingInv(c, started);
    } else {
      LaunchInv(c, Stop, ToShutDown, started);
    }
  }

  /** The state in which a coroutine continues once its callback is done. */
  function Idle(c: Component): Component {
    c.(pending := Empty, wait := None, needsCleanup := c.tasks == [] || Last(c.tasks).result != Some(Returned))
  }

  lemma IdleInv(c: Component, started: bool)
    requires ComponentInv(c, started) && c.wait.Some? && !Last(c.tasks).Running()
    ensures ComponentInv(Idle(c), started)
    ensures Last(c.tasks).kind == Stop ==> Settled(Idle(c)) && (Live(c.tasks) ==> Idle(c).needsCleanup)
  {
  }

  lemma AfterStartInv(c: Component, i: Input, started: bool)
    requires ComponentInv(c, started) && c.stableSince.None? && c.wait.None?
    ensures ComponentInv(AfterStart(c, i), started)
  {
    var d := AfterStart(c, i);
    if IsRunning(c, i) {
      assert d.seen[|c.seen|..] == [Observation(i.now, true)];
    }
  }

  lemma ResumeInv(c: Component, i: Input, started: bool)
    requires ComponentInv(c, started) && c.wait.Some? && !Last(c.tasks).Running()
    ensures ComponentInv(Resume(c, i), started)
    ensures c.wait.value.purpose == ToShutDown ==> Quiet(Resume(c, i))
  {
    var w := c.wait.value;
    var idle := Idle(c);
    IdleInv(c, started);
    if Last(c.tasks).result != Some(Returned) {
      ScheduleInv(idle, i, started);
    } else {
      match w.purpose {
        case ToClean =>
          LaunchInv(idle, Start, ToStart, started);
        case ToStart =>
          AfterStartInv(idle, i, started);
        case ToRestart =>
          LaunchInv(idle.(restarts := c.restarts + 1, nextRestartAt := 0.0), Start, ToStart, started);
        case ToShutDown =>
      }
    }
  }

  lemma TimeOutInv(c: Component, i: Input, started: bool)
    requires ComponentInv(c, started) && c.wait.Some?
    ensures ComponentInv(TimeOut(c, i), started)
    ensures c.wait.value.purpose == ToShutDown ==> Quiet(TimeOut(c, i))
  {
  }

  lemma CancelWaitInv(c: Component, started: bool)
    requires ComponentInv(c, started) && c.wait.Some?
    ensures ComponentInv(CancelWait(c), started)
  {
  }

  lemma ObserveRunning(seen: seq<Observation>, since: real, now: real)
    requires RunningSince(seen, since)
    ensures RunningSince(seen + [Observation(now, true)], since)
  {
    var k :| 0 <= k < |seen| && seen[k].at == since && AllRunning(seen[k..]);
    var s := seen + [Observation(now, true)];
    assert s[k..] == seen[k..] + [Observation(now, true)];
  }

  lemma MaintainInv(c: Component, stableAfter: real, stopping: bool, i: Input, started: bool)
    requires ComponentInv(c, started) && c.wait.None? && started
    ensures ComponentInv(Maintain(c, stableAfter, stopping, i), started)
       <==> LaunchedSettled(c, Maintain(c, stableAfter, stopping, i))
  {
    if !InFlight(c) {
      var idle := c.(pending := Empty);
      assert ComponentInv(idle, started);
      var seen := Observe(idle, i);
      if IsRunning(idle, i) {
        if c.stableSince.Some? {
          ObserveRunning(c.seen, c.stableSince.value, i.now);
        } else {
          assert seen.seen[|c.seen|..] == [Observation(i.now, true)];
          assert RunningSince(seen.seen, i.now);
        }
      } else {
        var lost := seen.(stableSince := None);
        assert ComponentInv(lost, started);
        var due := if lost.nextRestartAt <= 0.0 then ScheduleRetry(lost, i) else lost;
        ScheduleInv(lost, i, started);
        LaunchInv(due, Stop, ToRestart, started);
      }
    }
  }

  lemma CompleteInv(c: Component, outcome: Outcome, started: bool)
    requires ComponentInv(c, started) && c.tasks != [] && Last(c.tasks).Running()
    ensures ComponentInv(Complete(c, |c.tasks| - 1, outcome), started)
    ensures Live(Complete(c, |c.tasks| - 1, outcome).tasks) ==> Live(c.tasks)
  {
    var d := Complete(c, |c.tasks| - 1, outcome);
    assert Init(d.tasks) == Init(c.tasks);
  }

  lemma CallBackInv(c: Component, started: bool)
    requires ComponentInv(c, started) && c.tasks != [] && !Last(c.tasks).Running()
    ensures ComponentInv(CallBack(c, |c.tasks| - 1, started), started)
    ensures Live(CallBack(c, |c.tasks| - 1, started).tasks) == Live(c.tasks)
  {
    var d := CallBack(c, |c.tasks| - 1, started);
    assert Init(d.tasks) == Init(c.tasks);
  }

  /** The completion callback of a start has an effect only after shutdown. It keeps the
      invariant exactly when its start is the last callback launched, or nothing of the
      component is in flight or awaited and the component is marked. */
  lemma CallBackAnyInv(c: Component, id: nat, started: bool)
    requires ComponentInv(c, started) && id < |c.tasks| && !c.tasks[id].Running()
    ensures ComponentInv(CallBack(c, id, started), started)
       <==> (!started && c.tasks[id].kind == Start && id + 1 < |c.tasks| ==> Unclaimed(c))
    ensures Live(CallBack(c, id, started).tasks) == Live(c.tasks)
  {
    if id + 1 == |c.tasks| {
      CallBackInv(c, started);
    } else {
      MarkKeepsHistory(c.tasks, id);
      assert Last(CallBack(c, id, started).tasks) == Last(c.tasks);
    }
  }

  lemma {:induction false} MarkKeepsHistory(ts: seq<Task>, id: nat)
    requires id < |ts|
    ensures Live(ts[id := ts[id].(calledBack := true)]) == Live(ts)
    ensures Separated(ts[id := ts[id].(calledBack := true)]) == Separated(ts)
    decreases |ts|
  {
    var us := ts[id := ts[id].(calledBack := true)];
    if id + 1 < |ts| {
      MarkKeepsHistory(Init(ts), id);
      assert Init(us) == Init(ts)[id := ts[id].(calledBack := true)];
    } else {
      assert Init(us) == Init(ts);
    }
  }

  lemma RunLateInv(c: Component, started: bool)
    requires ComponentInv(c, started) && c.pending.LateCleanup?
    ensures ComponentInv(RunLate(c), started)
    ensures Live(RunLate(c).tasks) == Live(c.tasks)
  {
    LastOf(c.tasks, Task(Stop, None, false));
    var d := RunLate(c);
    assert OneInFlight(d.tasks);
  }

  lemma ResumeLateInv(c: Component, started: bool)
    requires ComponentInv(c, started) && c.lateWait.Some? && !Last(c.tasks).Running()
    ensures ComponentInv(ResumeLate(c), started)
    ensures Live(c.tasks) ==> ResumeLate(c).needsCleanup
  {
  }

  lemma TimeOutLateInv(c: Component, started: bool)
    requires ComponentInv(c, started) && c.lateWait.Some?
    ensures ComponentInv(TimeOutLate(c), started)
  {
  }
}
