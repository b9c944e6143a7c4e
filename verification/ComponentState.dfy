/** The mutable record that the supervisor keeps per component, with its methods cut at the
    awaits. Each method is proved equal to the transition that the state machine uses and
    keeps the invariant of the component; `started` is the flag of the supervisor. */
module ComponentState {
  import opened Wrappers
  import opened SupervisedComponent
  import opened SupervisedSteps

  lemma ObserveInv(c: Component, i: Input, started: bool)
    requires ComponentInv(c, started)
    ensures IsRunning(c, i) || c.stableSince.None? ==> ComponentInv(Observe(c, i), started)
  {
    if IsRunning(c, i) && c.stableSince.Some? {
      ObserveRunning(c.seen, c.stableSince.value, i.now);
    }
  }

  ghost predicate AnyRunning(ts: seq<Task>) {
    exists k :: 0 <= k < |ts| && ts[k].Running()
  }

  /** A callback is in flight or a late cleanup is scheduled. */
  ghost predicate Occupied(c: Component) {
    c.pending.LateCleanup? || AnyRunning(c.tasks)
  }

  /** The slot knows of every callback in flight. */
  lemma InFlightMeaning(c: Component, started: bool)
    requires ComponentInv(c, started)
    ensures InFlight(c) <==> Occupied(c)
  {
    if k :| 0 <= k < |c.tasks| && c.tasks[k].Running() {
      assert k + 1 == |c.tasks|;
    }
  }

  lemma ResumeAlwaysInv(c: Component, i: Input)
    requires c.wait.Some? && c.wait.value.id < |c.tasks| && !c.tasks[c.wait.value.id].Running()
    ensures forall started :: ComponentInv(c, started) ==>
              && ComponentInv(Resume(c, i), started)
              && (c.wait.value.purpose == ToShutDown ==> Quiet(Resume(c, i)))
  {
    forall started | ComponentInv(c, started)
      ensures ComponentInv(Resume(c, i), started)
      ensures c.wait.value.purpose == ToShutDown ==> Quiet(Resume(c, i))
    {
      ResumeInv(c, i, started);
    }
  }

  class State {
    const spec: Spec
    var failures: nat
    var restarts: nat
    var nextRestartAt: real
    var stableSince: Option<real>
    var pending: Slot
    var needsCleanup: bool
    var wait: Option<Wait>
    var lateWait: Option<nat>
    var tasks: seq<Task>
    var seen: seq<Observation>

    ghost function Value(): Component
      reads this
    {
      Component(spec, failures, restarts, nextRestartAt, stableSince, pending, needsCleanup, wait, lateWait, tasks,
                seen)
    }

    ghost predicate Valid(started: bool)
      reads this
    {
      ComponentInv(Value(), started)
    }

    constructor (spec: Spec)
      ensures Value() == Fresh(spec) && Valid(false) && Valid(true)
    {
      this.spec := spec;
      failures, restarts, nextRestartAt, stableSince := 0, 0, 0.0, None;
      pending, needsCleanup, wait, lateWait := Empty, false, None, None;
      tasks, seen := [], [];
    }

    /** The slot alone tells whether anything of the component is in flight. */
    method PendingInFlight() returns (b: bool)
      ensures b == InFlight(Value())
      ensures forall started :: Valid(started) ==> b == Occupied(Value())
    {
      forall started | Valid(started)
        ensures InFlight(Value()) == Occupied(Value())
      {
        InFlightMeaning(Value(), started);
      }
      match pending
      case Empty => b := false;
      case Callback(id) => b := id < |tasks| && tasks[id].result.None?;
      case LateCleanup(_) => b := true;
    }

    /** Counts a failure; the retry backs off exponentially, with jitter. */
    method ScheduleRetry(i: Input)
      modifies this`failures, this`nextRestartAt
      ensures Value() == SupervisedComponent.ScheduleRetry(old(Value()), i)
      ensures spec.Valid() ==> i.now <= nextRestartAt <= i.now + spec.maxDelay
      ensures forall started :: old(Valid(started)) ==> Valid(started)
    {
      failures := failures + 1;
      var exponent := if failures - 1 <= 20 then failures - 1 else 20;
      var base := Doubled(spec.initialDelay, exponent);
      if base > spec.maxDelay { base := spec.maxDelay; }
      var delay := i.jitter(base);
      if delay < 0.0 { delay := 0.0; }
      if delay > spec.maxDelay { delay := spec.maxDelay; }
      nextRestartAt := i.now + delay;
    }

    /** The part of a lifecycle call before its await: either the pending task is asked to
        stop and the call returns false, or the callback is launched and awaited. */
    method Lifecycle(kind: Kind, purpose: Purpose) returns (launched: bool)
      modifies this`pending, this`wait, this`tasks
      ensures launched == !InFlight(old(Value()))
      ensures forall started :: old(Valid(started)) ==> (launched <==> !Occupied(old(Value())))
      ensures Value() == if launched then Launch(old(Value()), kind, purpose) else CancelPending(old(Value()))
    {
      var inFlight := PendingInFlight();
      if inFlight {
        if pending.LateCleanup? { pending := LateCleanup(true); }
        return false;
      }
      pending := Callback(|tasks|);
      wait := Some(Wait(|tasks|, purpose));
      tasks := tasks + [Task(kind, None, false)];
      return true;
    }

    /** A component is seen running only when nothing of it is in flight or left to clean up. */
    method IsRunning(i: Input) returns (b: bool)
      modifies this`seen
      ensures b == SupervisedComponent.IsRunning(old(Value()), i) && Value() == Observe(old(Value()), i)
      ensures forall started :: old(Valid(started)) ==>
                && (b <==> i.alive && !needsCleanup && !Occupied(Value()))
                && (b || stableSince.None? ==> Valid(started))
    {
      var inFlight := PendingInFlight();
      b := !needsCleanup && !inFlight && i.alive;
      forall started | Valid(started)
        ensures b || stableSince.None? ==> ComponentInv(Observe(Value(), i), started)
      {
        ObserveInv(Value(), i, started);
      }
      seen := seen + [Observation(i.now, b)];
    }

    /** A component that may be live is stopped before it is started again. */
    method TryStart(i: Input)
      modifies this
      ensures Value() == SupervisedComponent.TryStart(old(Value()), i)
      ensures old(Valid(true) && Quiet(Value())) ==> (Valid(true) <==> LaunchedSettled(old(Value()), Value()))
      ensures old(Quiet(Value())) && |tasks| > |old(tasks)| && Last(tasks).kind == Start ==> !Live(old(tasks))
    {
      if Valid(true) && Quiet(Value()) { TryStartInv(Value(), i, true); }
      var launched;
      if needsCleanup {
        launched := Lifecycle(Stop, ToClean);
      } else {
        launched := Lifecycle(Start, ToStart);
      }
      if !launched {
        ScheduleRetry(i);
      }
    }

    /** One pass of the monitor up to its first await. */
    method Maintain(stableAfter: real, stopping: bool, i: Input)
      modifies this
      ensures Value() == SupervisedComponent.Maintain(old(Value()), stableAfter, stopping, i)
      ensures old(Valid(true)) && old(wait).None? ==> (Valid(true) <==> LaunchedSettled(old(Value()), Value()))
      ensures |tasks| > |old(tasks)| ==> !stopping && nextRestartAt <= i.now
    {
      if Valid(true) && wait.None? { MaintainInv(Value(), stableAfter, stopping, i, true); }
      if pending != Empty {
        var inFlight := PendingInFlight();
        if inFlight { return; }
        pending := Empty;
      }
      var running := IsRunning(i);
      if running {
        RecordSteady(stableAfter, i);
      } else {
        RecoverLost(stopping, i);
      }
    }

    /** The failure count is reset only after the stable time. */
    method RecordSteady(stableAfter: real, i: Input)
      modifies this`stableSince, this`failures, this`nextRestartAt
      ensures Value() == Steady(old(Value()), stableAfter, i)
      ensures failures != old(failures)
              ==> failures == 0 && stableSince.Some? && i.now - stableSince.value >= stableAfter
    {
      if stableSince.None? { stableSince := Some(i.now); }
      if failures > 0 && i.now - stableSince.value >= stableAfter { failures := 0; }
      nextRestartAt := 0.0;
    }

    /** A restart begins only when its time has come and no stop has been called. */
    method RecoverLost(stopping: bool, i: Input)
      modifies this
      ensures !InFlight(old(Value())) ==> Value() == Recover(old(Value()), stopping, i)
      ensures |tasks| > |old(tasks)| ==> !stopping && nextRestartAt <= i.now
    {
      stableSince := None;
      if nextRestartAt <= 0.0 { ScheduleRetry(i); }
      if i.now < nextRestartAt || stopping { return; }
      var launched := Lifecycle(Stop, ToRestart);
    }

    /** One component of a stop, up to its await. */
    method ShutDown()
      modifies this
      ensures Value() == SupervisedComponent.ShutDown(old(Value()))
      ensures forall started :: old(Valid(started)) && old(wait).None? ==>
                && (Valid(started) <==> LaunchedSettled(old(Value()), Value()))
                && (wait.None? ==> Quiet(Value()))
    {
      forall started | Valid(started) && wait.None?
        ensures var d := SupervisedComponent.ShutDown(Value());
                && (ComponentInv(d, started) <==> LaunchedSettled(Value(), d))
                && (d.wait.None? ==> Quiet(d))
      {
        ShutDownInv(Value(), started);
      }
      var launched := Lifecycle(Stop, ToShutDown);
      if !launched {
        stableSince, nextRestartAt := None, 0.0;
      }
    }

    /** The part of a lifecycle call after its await, when the callback is done, and what
        its caller goes on with. */
    method Resume(i: Input)
      requires wait.Some? && wait.value.id < |tasks| && tasks[wait.value.id].result.Some?
      modifies this
      ensures Value() == SupervisedComponent.Resume(old(Value()), i)
      ensures forall started :: old(Valid(started)) ==>
                Valid(started) && (old(wait).value.purpose == ToShutDown ==> Quiet(Value()))
    {
      ResumeAlwaysInv(Value(), i);
      var w := wait.value;
      var returned := tasks[w.id].result == Some(Returned);
      pending, wait, needsCleanup := Empty, None, !returned;
      if w.purpose == ToShutDown {
        stableSince, nextRestartAt := None, 0.0;
      } else if !returned {
        ScheduleRetry(i);
      } else if w.purpose == ToStart {
        FinishStart(i);
      } else {
        if w.purpose == ToRestart {
          restarts, nextRestartAt := restarts + 1, 0.0;
        }
        TryStart(i);
      }
    }

    /** What a start comes to once its callback has returned. */
    method FinishStart(i: Input)
      modifies this`seen, this`stableSince, this`nextRestartAt, this`failures
      ensures Value() == AfterStart(old(Value()), i)
      ensures stableSince != old(stableSince) ==> i.alive && !needsCleanup && !InFlight(Value())
    {
      var running := IsRunning(i);
      if running {
        stableSince, nextRestartAt := Some(i.now), 0.0;
      } else {
        ScheduleRetry(i);
      }
    }

    /** A callback that does not end in time stays owned, and the component is marked. */
    method TimeOut(i: Input)
      requires wait.Some?
      modifies this
      ensures Value() == SupervisedComponent.TimeOut(old(Value()), i)
      ensures pending == old(pending) && needsCleanup
      ensures forall started :: old(Valid(started)) ==> Valid(started)
    {
      forall started | Valid(started)
        ensures ComponentInv(SupervisedComponent.TimeOut(Value(), i), started)
      {
        TimeOutInv(Value(), i, started);
      }
      var purpose := wait.value.purpose;
      needsCleanup, wait := true, None;
      if purpose == ToShutDown {
        stableSince, nextRestartAt := None, 0.0;
      } else {
        ScheduleRetry(i);
      }
    }

    /** The coroutine that awaits the callback is itself cancelled. */
    method CancelWait()
      requires wait.Some?
      modifies this`needsCleanup, this`wait
      ensures Value() == SupervisedComponent.CancelWait(old(Value()))
      ensures forall started :: old(Valid(started)) ==> Valid(started)
    {
      needsCleanup, wait := true, None;
    }

    /** The completion callback of a task. */
    method Finished(id: nat, started: bool)
      requires id < |tasks| && tasks[id].result.Some?
      modifies this`pending, this`tasks
      ensures Value() == CallBack(old(Value()), id, started)
      ensures old(Valid(started)) ==>
                && (Valid(started) <==>
                    (!started && tasks[id].kind == Start && id + 1 < |tasks| ==> Unclaimed(old(Value()))))
                && Live(tasks) == Live(old(tasks))
    {
      if Valid(started) { CallBackAnyInv(Value(), id, started); }
      if !started && tasks[id].kind == Start { pending := LateCleanup(false); }
      tasks := tasks[id := tasks[id].(calledBack := true)];
    }

    method RunLateCleanup()
      requires pending.LateCleanup?
      modifies this`pending, this`lateWait, this`tasks
      ensures Value() == RunLate(old(Value()))
      ensures forall started :: old(Valid(started)) ==> Valid(started) && Live(tasks) == Live(old(tasks))
    {
      forall started | Valid(started)
        ensures ComponentInv(RunLate(Value()), started) && Live(RunLate(Value()).tasks) == Live(tasks)
      {
        RunLateInv(Value(), started);
      }
      if pending.cancelled {
        pending := Empty;
        return;
      }
      pending := Callback(|tasks|);
      lateWait := Some(|tasks|);
      tasks := tasks + [Task(Stop, None, false)];
    }

    method ResumeLateCleanup()
      requires lateWait.Some? && lateWait.value < |tasks| && tasks[lateWait.value].result.Some?
      modifies this`pending, this`lateWait, this`needsCleanup
      ensures Value() == ResumeLate(old(Value()))
      ensures forall started :: old(Valid(started)) ==> Valid(started) && (Live(tasks) ==> needsCleanup)
    {
      forall started | Valid(started)
        ensures ComponentInv(ResumeLate(Value()), started) && (Live(tasks) ==> ResumeLate(Value()).needsCleanup)
      {
        ResumeLateInv(Value(), started);
      }
      needsCleanup := tasks[lateWait.value].result != Some(Returned);
      pending, lateWait := Empty, None;
    }

    method TimeOutLateCleanup()
      requires lateWait.Some?
      modifies this`lateWait, this`needsCleanup
      ensures Value() == TimeOutLate(old(Value()))
      ensures forall started :: old(Valid(started)) ==> Valid(started)
    {
      lateWait, needsCleanup := None, true;
    }
  }
}
