/** What the supervisor does for a component, said of the component's record: which step
    launches which callback, what failure and success leave behind, and that a service that
    was lost comes back. */
module SupervisorProgress {
  import opened Wrappers
  import opened SupervisedComponent
  import opened RuntimeSupervisor

  /** From `c` to `d` exactly one callback was launched. It is in flight, the slot holds it,
      and a coroutine awaits it for `purpose`. */
  ghost predicate Launched(c: Component, d: Component, kind: Kind, purpose: Purpose) {
    && d.tasks == c.tasks + [Task(kind, None, false)]
    && d.pending == Callback(|c.tasks|) && d.wait == Some(Wait(|c.tasks|, purpose))
  }

  /** From `c` to `d` one failure was counted and a retry scheduled, and nothing was launched. */
  ghost predicate Retried(c: Component, d: Component, now: real) {
    && d.tasks == c.tasks && d.wait.None? && d.failures == c.failures + 1
    && (c.spec.Valid() ==> now <= d.nextRestartAt <= now + c.spec.maxDelay)
  }

  /** The coroutine awaits a callback that has ended with `outcome`. */
  ghost predicate EndedWith(c: Component, purpose: Purpose, outcome: Outcome) {
    && c.wait.Some? && c.wait.value.purpose == purpose
    && c.wait.value.id < |c.tasks| && c.tasks[c.wait.value.id].result == Some(outcome)
  }

  // ----- a callback has ended -----

  /** When a cleaning stop has returned, the start is launched. */
  lemma CleanedStarts(w: World, n: string, i: Input)
    requires Enabled(w, Resumed(n, i))
    requires EndedWith(w.comps[n], ToClean, Returned) || EndedWith(w.comps[n], ToRestart, Returned)
    ensures var c, d := w.comps[n], Next(w, Resumed(n, i)).comps[n];
            && Launched(c, d, Start, ToStart) && !d.needsCleanup && d.failures == c.failures
            && d.restarts == c.restarts + (if c.wait.value.purpose == ToRestart then 1 else 0)
            && (c.wait.value.purpose == ToRestart ==> d.nextRestartAt == 0.0)
  {
  }

  /** When a start has returned, the component is stable from now on if it is seen running;
      otherwise a failure is counted. */
  lemma StartedMeaning(w: World, n: string, i: Input)
    requires Enabled(w, Resumed(n, i)) && EndedWith(w.comps[n], ToStart, Returned)
    ensures var c, d := w.comps[n], Next(w, Resumed(n, i)).comps[n];
            && d.pending.Empty? && d.wait.None? && !d.needsCleanup && d.tasks == c.tasks
            && d.seen == c.seen + [Observation(i.now, i.alive)]
            && (i.alive ==> d.stableSince == Some(i.now) && d.nextRestartAt == 0.0 && d.failures == c.failures)
            && (!i.alive ==> Retried(c, d, i.now))
  {
  }

  /** A callback that ended in any other way leaves its component marked, and is retried later. */
  lemma FailedMeaning(w: World, n: string, i: Input, purpose: Purpose, outcome: Outcome)
    requires Enabled(w, Resumed(n, i)) && EndedWith(w.comps[n], purpose, outcome) && outcome != Returned
    ensures var c, d := w.comps[n], Next(w, Resumed(n, i)).comps[n];
            && d.needsCleanup && d.pending.Empty? && d.wait.None? && d.tasks == c.tasks
            && (purpose != ToShutDown ==> Retried(c, d, i.now))
            && (purpose == ToShutDown ==> d.failures == c.failures && d.stableSince.None? && d.nextRestartAt == 0.0)
  {
  }

  lemma ShutDownMeaning(w: World, n: string, i: Input)
    requires Enabled(w, Resumed(n, i)) && EndedWith(w.comps[n], ToShutDown, Returned)
    ensures var c, d := w.comps[n], Next(w, Resumed(n, i)).comps[n];
            && !d.needsCleanup && d.pending.Empty? && d.wait.None? && d.tasks == c.tasks
            && d.stableSince.None? && d.nextRestartAt == 0.0 && d.failures == c.failures
  {
  }

  /** A callback that does not end in time stays in flight and owned; its component is marked. */
  lemma TimedOutMeaning(w: World, n: string, i: Input)
    requires Enabled(w, TimedOut(n, i))
    ensures var c, d := w.comps[n], Next(w, TimedOut(n, i)).comps[n];
            && d.needsCleanup && d.pending == c.pending && d.wait.None? && d.tasks == c.tasks
            && (c.wait.value.purpose != ToShutDown ==> Retried(c, d, i.now))
            && (c.wait.value.purpose == ToShutDown ==> d.failures == c.failures && d.nextRestartAt == 0.0)
  {
  }

  lemma CompletedMeaning(w: World, n: string, id: nat, outcome: Outcome)
    requires Enabled(w, Completed(n, id, outcome))
    ensures var c, d := w.comps[n], Next(w, Completed(n, id, outcome)).comps[n];
            && d == c.(tasks := d.tasks) && |d.tasks| == |c.tasks| && d.tasks[id].result == Some(outcome)
            && d.tasks[id].kind == c.tasks[id].kind && d.tasks[id].calledBack == c.tasks[id].calledBack
            && forall k :: 0 <= k < |c.tasks| && k != id ==> d.tasks[k] == c.tasks[k]
  {
  }

  // ----- the monitor -----

  /** The monitor has nothing to wait for, and does not see the component running. */
  ghost predicate SeenLost(c: Component, i: Input) {
    !InFlight(c) && (c.needsCleanup || !i.alive)
  }

  /** A pass over a lost component whose time has come launches its cleaning stop. */
  lemma DueRestarts(w: World, n: string, i: Input)
    requires Enabled(w, MaintainOne(n, i)) && w.phase.Up? && SeenLost(w.comps[n], i)
    requires 0.0 < w.comps[n].nextRestartAt <= i.now
    ensures var c, d := w.comps[n], Next(w, MaintainOne(n, i)).comps[n];
            && Launched(c, d, Stop, ToRestart) && d.stableSince.None? && d.failures == c.failures
            && d.seen == c.seen + [Observation(i.now, false)]
  {
  }

  /** A pass over a component that was just lost schedules its restart. */
  lemma LostIsScheduled(w: World, n: string, i: Input)
    requires Enabled(w, MaintainOne(n, i)) && SeenLost(w.comps[n], i) && w.comps[n].nextRestartAt <= 0.0
    ensures var c, d := w.comps[n], Next(w, MaintainOne(n, i)).comps[n];
            && d.failures == c.failures + 1 && d.stableSince.None?
            && (c.spec.Valid() ==> i.now <= d.nextRestartAt <= i.now + c.spec.maxDelay)
            && (i.now < d.nextRestartAt ==> d.tasks == c.tasks && d.wait == c.wait)
  {
  }

  /** A pass over a running component keeps or begins its stable time, and forgets its failures
      once that time is long enough. */
  lemma RunningIsSteady(w: World, n: string, i: Input)
    requires Enabled(w, MaintainOne(n, i)) && !InFlight(w.comps[n]) && !w.comps[n].needsCleanup && i.alive
    ensures var c, d := w.comps[n], Next(w, MaintainOne(n, i)).comps[n];
            var since := if c.stableSince.Some? then c.stableSince.value else i.now;
            && d.stableSince == Some(since) && d.nextRestartAt == 0.0 && d.tasks == c.tasks && d.wait == c.wait
            && d.seen == c.seen + [Observation(i.now, true)]
            && (d.failures == if i.now - since >= w.stableAfter then 0 else c.failures)
  {
  }

  /** A pass does nothing while a callback or a late cleanup is pending. */
  lemma PendingIsLeft(w: World, n: string, i: Input)
    requires Enabled(w, MaintainOne(n, i)) && InFlight(w.comps[n])
    ensures Next(w, MaintainOne(n, i)).comps[n] == w.comps[n]
  {
  }

  // ----- start and stop -----

  /** A start turns to a component: it is started, after a cleaning stop if it is marked. */
  lemma StartTurns(w: World, i: Input)
    requires Enabled(w, StartNext(i))
    ensures var n := w.phase.todo[0];
            var c, d := w.comps[n], Next(w, StartNext(i)).comps[n];
            && (!InFlight(c) && !c.needsCleanup ==> Launched(c, d, Start, ToStart))
            && (!InFlight(c) && c.needsCleanup ==> Launched(c, d, Stop, ToClean))
            && (InFlight(c) ==> d.tasks == c.tasks && d.failures == c.failures + 1)
  {
  }

  /** A stop turns to a component: its stop is launched unless something is still in flight. */
  lemma StopTurns(w: World)
    requires Enabled(w, StopNext)
    ensures var n := w.phase.todo[0];
            var c, d := w.comps[n], Next(w, StopNext).comps[n];
            && (!InFlight(c) ==> Launched(c, d, Stop, ToShutDown))
            && (InFlight(c) ==> d.tasks == c.tasks && d.stableSince.None? && d.nextRestartAt == 0.0)
            && (InFlight(c) && c.pending.LateCleanup? ==> d.pending == LateCleanup(true))
  {
  }

  /** The components that a start or stop has still to turn to. */
  function Ahead(w: World): seq<string> {
    match w.phase
    case Starting(todo, busy) => if busy && todo != [] then todo[1..] else todo
    case Stopping(todo, busy) => if busy && todo != [] then todo[1..] else todo
    case _ => []
  }

  /** Along the run, start or stop turns to `n`. */
  ghost predicate TurnsTo(w: World, steps: seq<Step>, n: string)
    requires IsRun(w, steps)
    decreases |steps|
  {
    steps != [] &&
      (((steps[0].StartNext? || steps[0].StopNext?) && w.phase.todo[0] == n)
       || TurnsTo(Next(w, steps[0]), steps[1..], n))
  }

  lemma AheadAfter(w: World, s: Step, n: string)
    requires Enabled(w, s) && !s.StopCall? && !s.WaitCancelled? && n in Ahead(w)
    requires !((s.StartNext? || s.StopNext?) && w.phase.todo[0] == n)
    ensures n in Ahead(Next(w, s)) && (Next(w, s).phase.Starting? <==> w.phase.Starting?)
  {
    if s.StartNext? || s.StopNext? {
      assert w.phase.todo == [w.phase.todo[0]] + w.phase.todo[1..];
    }
  }

  /** A start or stop that comes to its end has turned to every component that was ahead. */
  lemma {:induction false} NoneSkipped(w: World, steps: seq<Step>, n: string)
    requires IsRun(w, steps) && n in Ahead(w) && n !in Ahead(After(w, steps))
    requires forall k :: 0 <= k < |steps| ==> !steps[k].StopCall? && !steps[k].WaitCancelled?
    ensures TurnsTo(w, steps, n)
    decreases |steps|
  {
    var s := steps[0];
    if !((s.StartNext? || s.StopNext?) && w.phase.todo[0] == n) {
      AheadAfter(w, s, n);
      NoneSkipped(Next(w, s), steps[1..], n);
    }
  }

  /** A start has every component ahead, and so has a stop once the monitor has ended, in
      reverse. */
  lemma AllAhead(w: World, s: Step)
    requires Enabled(w, s) && (s.StartCall? || s.StopBegin? || (s.StopCall? && w.phase.Down?))
    ensures Ahead(Next(w, s)) == if s.StartCall? then w.names else Reverse(w.names)
    ensures Next(w, s).comps == w.comps && (s.StartCall? ==> Next(w, s).started)
  {
  }

  /** Start ends with the monitor running, stop with the supervisor down; until then each works
      on, through all that is ahead. */
  lemma PhasesEnd(w: World, s: Step)
    requires Enabled(w, s) && (s.StartDone? || s.StopDone?)
    ensures Ahead(w) == [] && Next(w, s).comps == w.comps
    ensures s.StartDone? ==> Next(w, s).phase.Up? && Next(w, s).started == w.started
    ensures s.StopDone? ==> Next(w, s).phase.Down? && !Next(w, s).started
  {
  }

  lemma {:induction false} ReverseAt(s: seq<string>, k: nat)
    requires k < |s|
    ensures |Reverse(s)| == |s| && Reverse(s)[k] == s[|s| - 1 - k]
  {
    if |s| > 1 { ReverseAt(s[1..], if k < |s| - 1 then k else 0); }
  }

  // ----- a start that ends after shutdown -----

  /** A start that ends after shutdown is stopped: its completion callback schedules a cleanup,
      which launches a stop, and the mark goes only if that stop returns. */
  lemma LateStartIsStopped(w: World, n: string, id: nat)
    requires Enabled(w, CalledBack(n, id)) && !w.started && w.comps[n].tasks[id].kind == Start
    ensures var u := Next(w, CalledBack(n, id));
            && Enabled(u, LateBegins(n)) && |u.comps[n].tasks| == |w.comps[n].tasks|
            && var c, d := u.comps[n], Next(u, LateBegins(n)).comps[n];
               && d.tasks == c.tasks + [Task(Stop, None, false)] && d.pending == Callback(|c.tasks|)
               && d.lateWait == Some(|c.tasks|)
  {
  }

  lemma LateReportMeaning(w: World, n: string)
    requires Enabled(w, LateResumed(n))
    ensures var c, d := w.comps[n], Next(w, LateResumed(n)).comps[n];
            && d.tasks == c.tasks && d.pending.Empty? && d.lateWait.None?
            && (d.needsCleanup <==> c.tasks[c.lateWait.value].result != Some(Returned))
  {
  }

  /** A late cleanup that is out of time keeps its stop in the slot, and the mark. */
  lemma LateTimeOutMeaning(w: World, n: string)
    requires Enabled(w, LateTimedOut(n))
    ensures var c, d := w.comps[n], Next(w, LateTimedOut(n)).comps[n];
            d.tasks == c.tasks && d.pending == c.pending && d.lateWait.None? && d.needsCleanup
  {
  }

  /** A completion callback launches nothing, and leaves the slot alone unless it is that of a
      start after shutdown. */
  lemma CalledBackMeaning(w: World, n: string, id: nat)
    requires Enabled(w, CalledBack(n, id))
    ensures var c, d := w.comps[n], Next(w, CalledBack(n, id)).comps[n];
            && d == c.(tasks := d.tasks, pending := d.pending) && |d.tasks| == |c.tasks|
            && d.tasks[id] == c.tasks[id].(calledBack := true)
            && (forall k :: 0 <= k < |c.tasks| && k != id ==> d.tasks[k] == c.tasks[k])
            && (w.started || c.tasks[id].kind == Stop ==> d.pending == c.pending)
  {
  }

  /** A cleanup that was cancelled before it began never begins; the component keeps its mark. */
  lemma CancelledCleanup(w: World, n: string)
    requires Enabled(w, LateBegins(n)) && w.comps[n].pending.cancelled
    ensures var c, d := w.comps[n], Next(w, LateBegins(n)).comps[n];
            d.tasks == c.tasks && d.pending.Empty? && d.needsCleanup == c.needsCleanup
  {
  }

  // ----- a lost service comes back -----

  lemma One(w: World, a: Step)
    requires Enabled(w, a)
    ensures IsRun(w, [a]) && After(w, [a]) == Next(w, a)
  {
    assert [a][1..] == [];
  }

  lemma Two(w: World, a: Step, b: Step)
    requires Enabled(w, a) && Enabled(Next(w, a), b)
    ensures IsRun(w, [a, b]) && After(w, [a, b]) == Next(Next(w, a), b)
  {
    assert [a, b][1..] == [b];
    One(Next(w, a), b);
  }

  lemma Three(w: World, a: Step, b: Step, c: Step)
    requires Enabled(w, a) && Enabled(Next(w, a), b) && Enabled(Next(Next(w, a), b), c)
    ensures IsRun(w, [a, b, c]) && After(w, [a, b, c]) == Next(Next(Next(w, a), b), c)
  {
    assert [a, b, c][1..] == [b, c];
    Two(Next(w, a), b, c);
  }

  /** A callback that is awaited returns, and its coroutine goes on. */
  lemma ReturnAndResume(w: World, n: string, purpose: Purpose, i: Input)
    requires n in w.comps && !w.phase.Cancelling? && w.comps[n].tasks != []
    requires var c := w.comps[n];
             c.wait == Some(Wait(|c.tasks| - 1, purpose)) && c.tasks[|c.tasks| - 1].Running()
    ensures var k := |w.comps[n].tasks| - 1;
            && Enabled(w, Completed(n, k, Returned))
            && Enabled(Next(w, Completed(n, k, Returned)), Resumed(n, i))
            && EndedWith(Next(w, Completed(n, k, Returned)).comps[n], purpose, Returned)
  {
  }

  /** The cleaning stop of a component is awaited: when it has returned, the start is in flight. */
  lemma CleanedThenStarts(w: World, n: string, purpose: Purpose, i: Input)
    requires n in w.comps && !w.phase.Cancelling? && w.comps[n].tasks != []
             && (purpose == ToClean || purpose == ToRestart)
    requires var c := w.comps[n];
             c.wait == Some(Wait(|c.tasks| - 1, purpose)) && c.tasks[|c.tasks| - 1] == Task(Stop, None, false)
    ensures var k := |w.comps[n].tasks| - 1;
            var e := Completed(n, k, Returned);
            && Enabled(w, e) && Enabled(Next(w, e), Resumed(n, i))
            && var d := Next(Next(w, e), Resumed(n, i)).comps[n];
               && d.tasks == w.comps[n].tasks[..k] + [Task(Stop, Some(Returned), false), Task(Start, None, false)]
               && d.pending == Callback(k + 1) && d.wait == Some(Wait(k + 1, ToStart))
               && d.restarts == w.comps[n].restarts + (if purpose == ToRestart then 1 else 0)
  {
    var k := |w.comps[n].tasks| - 1;
    ReturnAndResume(w, n, purpose, i);
    CleanedStarts(Next(w, Completed(n, k, Returned)), n, i);
  }

  /** A lost component that is due: its cleaning stop is launched, and when that has returned,
      its start is in flight. */
  lemma LostIsRestarted(w: World, n: string, due: Input, after: Input)
    requires Enabled(w, MaintainOne(n, due)) && w.phase.Up? && SeenLost(w.comps[n], due)
    requires 0.0 < w.comps[n].nextRestartAt <= due.now
    ensures var k := |w.comps[n].tasks|;
            var steps := [MaintainOne(n, due), Completed(n, k, Returned), Resumed(n, after)];
            && IsRun(w, steps) && n in After(w, steps).comps
            && var d := After(w, steps).comps[n];
               && d.tasks == w.comps[n].tasks + [Task(Stop, Some(Returned), false), Task(Start, None, false)]
               && d.pending == Callback(k + 1) && d.wait == Some(Wait(k + 1, ToStart))
               && d.restarts == w.comps[n].restarts + 1
  {
    var k := |w.comps[n].tasks|;
    DueRestarts(w, n, due);
    RestartsBegun(w, n, due);
    CleanedThenStarts(Next(w, MaintainOne(n, due)), n, ToRestart, after);
    Three(w, MaintainOne(n, due), Completed(n, k, Returned), Resumed(n, after));
  }

  lemma RestartsBegun(w: World, n: string, i: Input)
    requires Enabled(w, MaintainOne(n, i)) && w.phase.Up?
    ensures Next(w, MaintainOne(n, i)).phase.Up? && n in Next(w, MaintainOne(n, i)).comps
    ensures Next(w, MaintainOne(n, i)).comps[n].restarts == w.comps[n].restarts
  {
  }

  /** A marked component that start turns to: after its cleaning stop its start is in flight. */
  lemma MarkedIsStarted(w: World, i: Input, after: Input)
    requires Enabled(w, StartNext(i)) && w.comps[w.phase.todo[0]].needsCleanup && !InFlight(w.comps[w.phase.todo[0]])
    ensures var n := w.phase.todo[0];
            var k := |w.comps[n].tasks|;
            var steps := [StartNext(i), Completed(n, k, Returned), Resumed(n, after)];
            && IsRun(w, steps) && n in After(w, steps).comps
            && var d := After(w, steps).comps[n];
               && d.tasks == w.comps[n].tasks + [Task(Stop, Some(Returned), false), Task(Start, None, false)]
               && d.pending == Callback(k + 1) && d.wait == Some(Wait(k + 1, ToStart))
  {
    var n := w.phase.todo[0];
    var k := |w.comps[n].tasks|;
    StartTurns(w, i);
    CleanedThenStarts(Next(w, StartNext(i)), n, ToClean, after);
    Three(w, StartNext(i), Completed(n, k, Returned), Resumed(n, after));
  }

  /** When the start returns and the service answers, the component is running and unmarked. */
  lemma StartedIsRunning(w: World, n: string, i: Input)
    requires n in w.comps && !w.phase.Cancelling? && w.comps[n].tasks != [] && i.alive
    requires var c := w.comps[n];
             c.wait == Some(Wait(|c.tasks| - 1, ToStart)) && c.tasks[|c.tasks| - 1].Running()
    ensures var steps := [Completed(n, |w.comps[n].tasks| - 1, Returned), Resumed(n, i)];
            && IsRun(w, steps) && n in After(w, steps).comps
            && var d := After(w, steps).comps[n];
               !d.needsCleanup && d.pending.Empty? && d.stableSince == Some(i.now) && d.nextRestartAt == 0.0
  {
    var k := |w.comps[n].tasks| - 1;
    ReturnAndResume(w, n, ToStart, i);
    StartedMeaning(Next(w, Completed(n, k, Returned)), n, i);
    Two(w, Completed(n, k, Returned), Resumed(n, i));
  }

  // ----- what a step leaves alone -----

  /** The component that the step is about, if it is about one. */
  function Subject(w: World, s: Step): Option<string>
    requires s.StartNext? || s.StopNext? ==> w.phase.Starting? || w.phase.Stopping?
  {
    match s
    case StartNext(_) => if w.phase.todo == [] then None else Some(w.phase.todo[0])
    case StopNext => if w.phase.todo == [] then None else Some(w.phase.todo[0])
    case MaintainOne(n, _) => Some(n)
    case Completed(n, _, _) => Some(n)
    case CalledBack(n, _) => Some(n)
    case Resumed(n, _) => Some(n)
    case TimedOut(n, _) => Some(n)
    case WaitCancelled(n) => Some(n)
    case LateBegins(n) => Some(n)
    case LateResumed(n) => Some(n)
    case LateTimedOut(n) => Some(n)
    case _ => None
  }

  /** A step changes the component that it is about and no other. */
  lemma OthersUntouched(w: World, s: Step, m: string)
    requires Enabled(w, s) && !s.Configure? && m in w.comps && Subject(w, s) != Some(m)
    ensures m in Next(w, s).comps && Next(w, s).comps[m] == w.comps[m]
    ensures Next(w, s).names == w.names && Next(w, s).stableAfter == w.stableAfter
  {
  }

  /** Configuring registers the given components, each fresh. */
  lemma ConfigureMeaning(w: World, specs: seq<(string, Spec)>, k: nat)
    requires Enabled(w, Configure(specs)) && k < |specs|
    ensures var u, n := Next(w, Configure(specs)), specs[k].0;
            && |u.names| == |specs| && u.names[k] == n && n in u.comps
            && u.comps[n].spec == specs[k].1 && u.comps[n].tasks == [] && u.comps[n].seen == []
            && u.comps[n].failures == 0 && u.comps[n].nextRestartAt == 0.0 && u.comps[n].pending.Empty?
            && !u.comps[n].needsCleanup && u.comps[n].wait.None? && u.comps[n].lateWait.None?
  {
    assert NamesOf(specs)[k] == specs[k].0;
    var j :| 0 <= j < |specs| && specs[j].0 == specs[k].0 && SpecOf(specs, specs[k].0) == specs[j].1;
    assert NamesOf(specs)[j] == NamesOf(specs)[k];
  }

  /** Configuring is accepted exactly when the supervisor is down, nothing is marked or in
      flight, and the names differ. */
  lemma ConfigureAccepted(w: World, specs: seq<(string, Spec)>)
    ensures Enabled(w, Configure(specs)) <==>
              && w.phase.Down? && !w.started
              && (forall n :: n in w.comps ==> !w.comps[n].needsCleanup && !InFlight(w.comps[n]))
              && (forall i, j :: 0 <= i < j < |specs| ==> specs[i].0 != specs[j].0)
  {
    assert forall i :: 0 <= i < |specs| ==> NamesOf(specs)[i] == specs[i].0;
  }

  /** A wait that is cancelled leaves the callback owned and the component marked. */
  lemma CancelledMeaning(w: World, n: string)
    requires Enabled(w, WaitCancelled(n))
    ensures var c, d := w.comps[n], Next(w, WaitCancelled(n)).comps[n];
            d.needsCleanup && d.wait.None? && d.pending == c.pending && d.tasks == c.tasks
  {
  }
}
