/** What every run of the supervisor keeps, prompt or not: who waits for what in which phase,
    and what the stable time of a component means. */
module SupervisorPhases {
  import opened Wrappers
  import opened SupervisedComponent
  import opened SupervisedSteps
  import opened RuntimeSupervisor

  /** Since its stable time the component was seen running, and only a stop is awaited
      meanwhile. */
  ghost predicate Steadied(c: Component) {
    StableOk(c) && (c.wait.Some? && c.wait.value.purpose != ToShutDown ==> c.stableSince.None?)
  }

  /** No coroutine works on the component, and it has no stable time. */
  ghost predicate Resting(c: Component) {
    c.wait.None? && c.stableSince.None?
  }

  ghost predicate GoingDown(c: Component) {
    if c.wait.Some? then c.wait.value.purpose == ToShutDown else Resting(c)
  }

  ghost predicate PhaseSteady(w: World) {
    match w.phase
    case Down => !w.started && forall n :: n in w.comps ==> Resting(w.comps[n])
    case Starting(todo, busy) =>
      && w.started && TodoOk(w, todo)
      && (forall n :: Waiting(todo, busy, n) ==> Resting(w.comps[n]))
    case Stopping(todo, busy) =>
      && TodoOk(w, todo)
      && (forall n :: n in w.comps && n !in todo ==> Resting(w.comps[n]))
      && (forall n :: Waiting(todo, busy, n) ==> w.comps[n].wait.None?)
      && (busy ==> todo != [] && GoingDown(w.comps[todo[0]]))
      && (!w.started ==> forall n :: n in w.comps ==> w.comps[n].stableSince.None?)
    case _ => w.started
  }

  ghost predicate SteadyInv(w: World) {
    && Distinct(w.names)
    && (forall n :: n in w.names <==> n in w.comps)
    && (forall n :: n in w.comps ==> Steadied(w.comps[n]))
    && PhaseSteady(w)
  }

  // ----- one component -----

  lemma TryStartSteady(c: Component, i: Input)
    requires Steadied(c) && Resting(c)
    ensures Steadied(TryStart(c, i))
  {
  }

  lemma ShutDownSteady(c: Component)
    requires Steadied(c) && c.wait.None?
    ensures Steadied(ShutDown(c)) && GoingDown(ShutDown(c))
    ensures c.stableSince.None? ==> ShutDown(c).stableSince.None?
  {
  }

  lemma MaintainSteady(c: Component, stableAfter: real, stopping: bool, i: Input)
    requires Steadied(c) && c.wait.None?
    ensures Steadied(Maintain(c, stableAfter, stopping, i))
  {
    if c.stableSince.Some? {
      ObserveRunning(c.seen, c.stableSince.value, i.now);
    } else {
      assert (c.seen + [Observation(i.now, true)])[|c.seen|..] == [Observation(i.now, true)];
      assert RunningSince(c.seen + [Observation(i.now, true)], i.now);
    }
  }

  lemma AfterStartSteady(c: Component, i: Input)
    requires c.stableSince.None? && c.wait.None?
    ensures Steadied(AfterStart(c, i))
  {
    assert (c.seen + [Observation(i.now, true)])[|c.seen|..] == [Observation(i.now, true)];
    assert RunningSince(c.seen + [Observation(i.now, true)], i.now);
  }

  lemma ResumeSteady(c: Component, i: Input)
    requires Steadied(c) && c.wait.Some?
    requires c.wait.value.id < |c.tasks| && !c.tasks[c.wait.value.id].Running()
    ensures Steadied(Resume(c, i))
    ensures c.wait.value.purpose == ToShutDown ==> Resting(Resume(c, i))
  {
    var returned := c.tasks[c.wait.value.id].result == Some(Returned);
    if c.wait.value.purpose == ToStart && returned {
      AfterStartSteady(c.(pending := Empty, wait := None, needsCleanup := false), i);
    }
  }

  lemma TimeOutSteady(c: Component, i: Input)
    requires Steadied(c) && c.wait.Some?
    ensures Steadied(TimeOut(c, i))
    ensures c.wait.value.purpose == ToShutDown ==> Resting(TimeOut(c, i))
  {
  }

  // ----- every step -----

  /** Replacing one component, with the phase as it was. */
  lemma SetSteady(w: World, n: string, d: Component)
    requires SteadyInv(w) && n in w.comps && Steadied(d) && PhaseSteady(Set(w, n, d))
    ensures SteadyInv(Set(w, n, d))
  {
  }

  lemma SamePhase(w: World, n: string, d: Component)
    requires PhaseSteady(w) && n in w.comps && d.wait == w.comps[n].wait && d.stableSince == w.comps[n].stableSince
    ensures PhaseSteady(Set(w, n, d))
  {
  }

  lemma EventSteady(w: World, s: Step)
    requires SteadyInv(w) && Enabled(w, s)
    requires s.Completed? || s.CalledBack? || s.LateBegins? || s.LateResumed? || s.LateTimedOut?
    ensures SteadyInv(Next(w, s))
  {
    var d := Next(w, s).comps[s.name];
    assert d.wait == w.comps[s.name].wait && d.stableSince == w.comps[s.name].stableSince;
    assert d.seen == w.comps[s.name].seen;
    SamePhase(w, s.name, d);
    SetSteady(w, s.name, d);
  }

  /** A coroutine goes on with the component it was suspended on. */
  lemma WorkedPhase(w: World, n: string, d: Component)
    requires PhaseSteady(w) && !w.phase.Cancelling? && n in w.comps && w.comps[n].wait.Some?
    requires w.comps[n].wait.value.purpose == ToShutDown ==> Resting(d)
    ensures PhaseSteady(Set(w, n, d))
  {
  }

  lemma ResumedSteady(w: World, s: Step)
    requires SteadyInv(w) && Enabled(w, s) && (s.Resumed? || s.TimedOut?)
    ensures SteadyInv(Next(w, s))
  {
    var c := w.comps[s.name];
    match s
    case Resumed(n, i) =>
      ResumeSteady(c, i);
      WorkedPhase(w, n, Resume(c, i));
      SetSteady(w, n, Resume(c, i));
    case TimedOut(n, i) =>
      TimeOutSteady(c, i);
      WorkedPhase(w, n, TimeOut(c, i));
      SetSteady(w, n, TimeOut(c, i));
  }

  lemma MaintainedSteady(w: World, n: string, i: Input)
    requires SteadyInv(w) && Enabled(w, MaintainOne(n, i))
    ensures SteadyInv(Next(w, MaintainOne(n, i)))
  {
    var d := Maintain(w.comps[n], w.stableAfter, w.phase.Cancelling?, i);
    MaintainSteady(w.comps[n], w.stableAfter, w.phase.Cancelling?, i);
    SetSteady(w, n, d);
  }

  lemma CancelledPhase(w: World, n: string)
    requires PhaseSteady(w) && Enabled(w, WaitCancelled(n))
    ensures PhaseSteady(Next(w, WaitCancelled(n)))
  {
    if w.phase.Stopping? && !w.started {
      var todo, busy := w.phase.todo, w.phase.busy;
      forall m | m in w.comps && m != n
        ensures Resting(w.comps[m])
      {
        assert Waiting(todo, busy, m) ==> w.comps[m].wait.None?;
      }
    }
  }

  lemma CancelledSteady(w: World, n: string)
    requires SteadyInv(w) && Enabled(w, WaitCancelled(n))
    ensures SteadyInv(Next(w, WaitCancelled(n)))
  {
    CancelledPhase(w, n);
    assert Steadied(CancelWait(w.comps[n]));
  }

  /** Turning to the first component of the list and bringing it to `d`. */
  lemma TurnToSteady(w: World, d: Component, u: World)
    requires SteadyInv(w) && (w.phase.Starting? || w.phase.Stopping?)
    requires w.phase.todo != [] && w.phase.todo[0] in w.comps && Steadied(d)
    requires u.comps == w.comps[w.phase.todo[0] := d] && u.names == w.names && PhaseSteady(u)
    ensures SteadyInv(u)
  {
  }

  lemma StartTurnPhase(w: World, d: Component)
    requires PhaseSteady(w) && w.phase.Starting? && !w.phase.busy && w.phase.todo != [] && w.phase.todo[0] in w.comps
    ensures PhaseSteady(Set(w, w.phase.todo[0], d).(phase := Starting(w.phase.todo, true)))
  {
  }

  lemma StopTurnPhase(w: World, d: Component)
    requires PhaseSteady(w) && w.phase.Stopping? && !w.phase.busy && w.phase.todo != [] && w.phase.todo[0] in w.comps
    requires GoingDown(d) && (!w.started ==> d.stableSince.None?)
    ensures PhaseSteady(Set(w, w.phase.todo[0], d).(phase := Stopping(w.phase.todo, true)))
  {
  }

  lemma TurnSteady(w: World, s: Step)
    requires SteadyInv(w) && Enabled(w, s) && (s.StartNext? || s.StopNext?)
    ensures SteadyInv(Next(w, s))
  {
    var n := w.phase.todo[0];
    var c := w.comps[n];
    assert Waiting(w.phase.todo, false, n);
    match s
    case StartNext(i) =>
      TryStartSteady(c, i);
      StartTurnPhase(w, TryStart(c, i));
      TurnToSteady(w, TryStart(c, i), Next(w, s));
    case StopNext =>
      ShutDownSteady(c);
      StopTurnPhase(w, ShutDown(c));
      TurnToSteady(w, ShutDown(c), Next(w, s));
  }

  lemma AdvanceSteady(w: World, s: Step)
    requires SteadyInv(w) && Enabled(w, s) && (s.StartAdvance? || s.StopAdvance?)
    ensures SteadyInv(Next(w, s))
  {
    var todo := w.phase.todo;
    assert todo == [todo[0]] + todo[1..];
    forall n
      ensures Waiting(todo[1..], false, n) <==> Waiting(todo, true, n)
    {
    }
  }

  lemma BeginStopPhase(w: World)
    requires PhaseSteady(w) && Distinct(w.names) && (forall n :: n in w.names <==> n in w.comps)
    requires (w.phase.Cancelling? && NoWaits(w)) || w.phase.Down?
    ensures PhaseSteady(w.(phase := Stopping(Reverse(w.names), false)))
  {
    ReverseProperties(w.names);
  }

  lemma StopDoneSteady(w: World)
    requires PhaseSteady(w) && Enabled(w, StopDone)
    ensures PhaseSteady(Next(w, StopDone))
  {
    assert forall n :: n in w.comps ==> Resting(w.comps[n]);
  }

  lemma PhaseStepSteady(w: World, s: Step)
    requires SteadyInv(w) && Enabled(w, s)
    requires s.StartCall? || s.StartDone? || s.StopCall? || s.StopBegin? || s.StopDone? || s.StopAbort?
    ensures SteadyInv(Next(w, s))
  {
    if s.StopDone? {
      StopDoneSteady(w);
    } else if s.StopBegin? || (s.StopCall? && w.phase.Down?) {
      BeginStopPhase(w);
    }
  }

  lemma ConfigureSteady(w: World, specs: seq<(string, Spec)>)
    requires SteadyInv(w) && Enabled(w, Configure(specs))
    ensures SteadyInv(Next(w, Configure(specs)))
  {
  }

  /** Every step keeps it, prompt or not. */
  lemma StepKeepsSteady(w: World, s: Step)
    requires SteadyInv(w) && Enabled(w, s)
    ensures SteadyInv(Next(w, s))
  {
    match s
    case Configure(specs) => ConfigureSteady(w, specs);
    case StartNext(_) => TurnSteady(w, s);
    case StopNext => TurnSteady(w, s);
    case MaintainOne(n, i) => MaintainedSteady(w, n, i);
    case StartAdvance => AdvanceSteady(w, s);
    case StopAdvance => AdvanceSteady(w, s);
    case Completed(_, _, _) => EventSteady(w, s);
    case CalledBack(_, _) => EventSteady(w, s);
    case LateBegins(_) => EventSteady(w, s);
    case LateResumed(_) => EventSteady(w, s);
    case LateTimedOut(_) => EventSteady(w, s);
    case Resumed(_, _) => ResumedSteady(w, s);
    case TimedOut(_, _) => ResumedSteady(w, s);
    case WaitCancelled(n) => CancelledSteady(w, n);
    case _ => PhaseStepSteady(w, s);
  }

  lemma {:induction false} RunKeepsSteady(w: World, steps: seq<Step>)
    requires SteadyInv(w) && IsRun(w, steps)
    ensures SteadyInv(After(w, steps))
    decreases |steps|
  {
    if steps != [] {
      StepKeepsSteady(w, steps[0]);
      RunKeepsSteady(Next(w, steps[0]), steps[1..]);
    }
  }

  /** In every run from the start, prompt or not. */
  lemma AlwaysSteady(stableAfter: real, steps: seq<Step>)
    requires IsRun(InitialWorld(stableAfter), steps)
    ensures SteadyInv(After(InitialWorld(stableAfter), steps))
  {
    RunKeepsSteady(InitialWorld(stableAfter), steps);
  }
}
