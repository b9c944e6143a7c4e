/** The supervisor as a state machine. Each step is one stretch of code between two awaits,
    or one event of the event loop: the completion of a callback, its completion callback,
    a timeout, a cancellation. One owner calls start and stop, as the application's
    lifespan does. */
module RuntimeSupervisor {
  import opened SupervisedComponent
  import opened SupervisedSteps

  /** How far start and stop have come. `busy` says that the first component of `todo` is
      being worked on. `Cancelling` is a stop that waits for the monitor to end, `Halted` a
      stop that was itself cancelled. */
  datatype Phase =
    | Down
    | Starting(todo: seq<string>, busy: bool)
    | Up
    | Cancelling
    | Stopping(todo: seq<string>, busy: bool)
    | Halted

  datatype World = World(
    started: bool,
    phase: Phase,
    stableAfter: real,
    names: seq<string>,
    comps: map<string, Component>)

  datatype Step =
    | Configure(specs: seq<(string, Spec)>)
    | StartCall
    | StartNext(input: Input)
    | StartAdvance
    | StartDone
    | MaintainOne(name: string, input: Input)
    | StopCall
    | StopBegin
    | StopNext
    | StopAdvance
    | StopDone
    | StopAbort
    | Completed(name: string, id: nat, outcome: Outcome)
    | CalledBack(name: string, id: nat)
    | Resumed(name: string, input: Input)
    | TimedOut(name: string, input: Input)
    | WaitCancelled(name: string)
    | LateBegins(name: string)
    | LateResumed(name: string)
    | LateTimedOut(name: string)

  function InitialWorld(stableAfter: real): World {
    World(false, Down, stableAfter, [], map[])
  }

  function Reverse(s: seq<string>): seq<string> {
    if s == [] then [] else Reverse(s[1..]) + [s[0]]
  }

  ghost predicate Distinct(s: seq<string>) {
    forall i, j :: 0 <= i < j < |s| ==> s[i] != s[j]
  }

  ghost predicate AnyNeedsCleanup(w: World) {
    exists n :: n in w.comps && w.comps[n].needsCleanup
  }

  ghost predicate NoWaits(w: World) {
    forall n :: n in w.comps ==> w.comps[n].wait.None?
  }

  /** The condition under which configure accepts to discard the registered components. */
  ghost predicate MayDiscard(w: World) {
    !w.started && forall n :: n in w.comps ==> !w.comps[n].needsCleanup && !InFlight(w.comps[n])
  }

  /** Nothing works any more on the first component of the list. */
  ghost predicate FirstIsDone(w: World)
    requires w.phase.Starting? || w.phase.Stopping?
  {
    w.phase.todo != [] && w.phase.todo[0] in w.comps && w.comps[w.phase.todo[0]].wait.None?
  }

  ghost predicate Enabled(w: World, s: Step) {
    match s
    case Configure(specs) => w.phase.Down? && MayDiscard(w) && Distinct(NamesOf(specs))
    case StartCall => w.phase.Down?
    case StartNext(_) => w.phase.Starting? && !w.phase.busy && w.phase.todo != [] && w.phase.todo[0] in w.comps
    case StartAdvance => w.phase.Starting? && w.phase.busy && FirstIsDone(w)
    case StartDone => w.phase.Starting? && w.phase.todo == []
    case MaintainOne(n, _) => (w.phase.Up? || w.phase.Cancelling?) && n in w.comps && w.comps[n].wait.None?
    case StopCall => w.phase.Starting? || w.phase.Up? || w.phase.Halted? || (w.phase.Down? && AnyNeedsCleanup(w))
    case StopBegin => w.phase.Cancelling? && NoWaits(w)
    case StopNext => w.phase.Stopping? && !w.phase.busy && w.phase.todo != [] && w.phase.todo[0] in w.comps
    case StopAdvance => w.phase.Stopping? && w.phase.busy && FirstIsDone(w)
    case StopDone => w.phase.Stopping? && w.phase.todo == []
    case StopAbort => w.phase.Cancelling? && NoWaits(w)
    case Completed(n, id, _) => n in w.comps && id < |w.comps[n].tasks| && w.comps[n].tasks[id].Running()
    case CalledBack(n, id) => n in w.comps && id < |w.comps[n].tasks|
                              && !w.comps[n].tasks[id].Running() && !w.comps[n].tasks[id].calledBack
    case Resumed(n, _) => !w.phase.Cancelling? && n in w.comps && w.comps[n].wait.Some?
                          && w.comps[n].wait.value.id < |w.comps[n].tasks|
                          && !w.comps[n].tasks[w.comps[n].wait.value.id].Running()
    case TimedOut(n, _) => !w.phase.Cancelling? && n in w.comps && w.comps[n].wait.Some?
                           && w.comps[n].wait.value.id < |w.comps[n].tasks|
                           && w.comps[n].tasks[w.comps[n].wait.value.id].Running()
    case WaitCancelled(n) => (w.phase.Cancelling? || w.phase.Stopping?) && n in w.comps && w.comps[n].wait.Some?
    case LateBegins(n) => n in w.comps && w.comps[n].pending.LateCleanup?
    case LateResumed(n) => n in w.comps && w.comps[n].lateWait.Some? && w.comps[n].lateWait.value < |w.comps[n].tasks|
                           && !w.comps[n].tasks[w.comps[n].lateWait.value].Running()
    case LateTimedOut(n) => n in w.comps && w.comps[n].lateWait.Some? && w.comps[n].lateWait.value < |w.comps[n].tasks|
                            && w.comps[n].tasks[w.comps[n].lateWait.value].Running()
  }

  function NamesOf(specs: seq<(string, Spec)>): seq<string> {
    seq(|specs|, k requires 0 <= k < |specs| => specs[k].0)
  }

  ghost function Configured(specs: seq<(string, Spec)>): map<string, Component> {
    map n | n in NamesOf(specs) :: Fresh(SpecOf(specs, n))
  }

  ghost function SpecOf(specs: seq<(string, Spec)>, n: string): Spec
    requires n in NamesOf(specs)
  {
    var k :| 0 <= k < |specs| && specs[k].0 == n;
    specs[k].1
  }

  function Set(w: World, n: string, c: Component): World {
    w.(comps := w.comps[n := c])
  }

  ghost function Next(w: World, s: Step): World
    requires Enabled(w, s)
  {
    match s
    case Configure(specs) => w.(names := NamesOf(specs), comps := Configured(specs))
    case StartCall => w.(started := true, phase := Starting(w.names, false))
    case StartNext(i) =>
      var n := w.phase.todo[0];
      Set(w, n, TryStart(w.comps[n], i)).(phase := Starting(w.phase.todo, true))
    case StartAdvance => w.(phase := Starting(w.phase.todo[1..], false))
    case StartDone => w.(phase := Up)
    case MaintainOne(n, i) => Set(w, n, Maintain(w.comps[n], w.stableAfter, w.phase.Cancelling?, i))
    case StopCall => w.(phase := if w.phase.Down? then Stopping(Reverse(w.names), false) else Cancelling)
    case StopBegin => w.(phase := Stopping(Reverse(w.names), false))
    case StopNext =>
      var n := w.phase.todo[0];
      Set(w, n, ShutDown(w.comps[n])).(phase := Stopping(w.phase.todo, true))
    case StopAdvance => w.(phase := Stopping(w.phase.todo[1..], false))
    case StopDone => w.(started := false, phase := Down)
    case StopAbort => w.(phase := Halted)
    case Completed(n, id, outcome) => Set(w, n, Complete(w.comps[n], id, outcome))
    case CalledBack(n, id) => Set(w, n, CallBack(w.comps[n], id, w.started))
    case Resumed(n, i) => Set(w, n, Resume(w.comps[n], i))
    case TimedOut(n, i) => Set(w, n, TimeOut(w.comps[n], i))
    case WaitCancelled(n) =>
      Set(w, n, CancelWait(w.comps[n]))
      .(phase := if w.phase.Cancelling? then Cancelling else if w.started then Halted else Down)
    case LateBegins(n) => Set(w, n, RunLate(w.comps[n]))
    case LateResumed(n) => Set(w, n, ResumeLate(w.comps[n]))
    case LateTimedOut(n) => Set(w, n, TimeOutLate(w.comps[n]))
  }

  /** No callback is launched while a late cleanup has still to learn that its stop is done;
      and a start that reports after shutdown is still the last callback launched, or finds
      nothing of the component in flight or awaited and the component marked. A start that
      reports before shutdown may do so at any time. */
  ghost predicate Prompt(w: World, s: Step)
    requires Enabled(w, s)
  {
    match s
    case StartNext(_) => LaunchedSettled(w.comps[w.phase.todo[0]], Next(w, s).comps[w.phase.todo[0]])
    case MaintainOne(n, _) => LaunchedSettled(w.comps[n], Next(w, s).comps[n])
    case StopNext => LaunchedSettled(w.comps[w.phase.todo[0]], Next(w, s).comps[w.phase.todo[0]])
    case CalledBack(n, id) =>
      !w.started && w.comps[n].tasks[id].kind == Start && id + 1 < |w.comps[n].tasks| ==> Unclaimed(w.comps[n])
    case _ => true
  }

  // ----- the invariant -----

  ghost predicate TodoOk(w: World, todo: seq<string>) {
    Distinct(todo) && forall n :: n in todo ==> n in w.comps
  }

  /** The first of `todo` is not counted while it is being worked on. */
  ghost predicate Waiting(todo: seq<string>, busy: bool, n: string) {
    n in todo && !(busy && n == todo[0])
  }

  ghost predicate PhaseOk(w: World) {
    match w.phase
    case Down => !w.started && forall n :: n in w.comps ==> Quiet(w.comps[n])
    case Starting(todo, busy) =>
      && w.started && TodoOk(w, todo)
      && (forall n :: Waiting(todo, busy, n) ==> Quiet(w.comps[n]))
    case Stopping(todo, busy) =>
      && TodoOk(w, todo)
      && (forall n :: n in w.comps && n !in todo ==> Quiet(w.comps[n]))
      && (forall n :: Waiting(todo, busy, n) ==> w.comps[n].wait.None?)
      && (busy ==> todo != [] && ShuttingDown(w.comps[todo[0]]))
      && (!w.started ==> forall n :: n in w.comps ==> w.comps[n].stableSince.None?)
    case _ => w.started
  }

  ghost predicate ShuttingDown(c: Component) {
    if c.wait.Some? then c.wait.value.purpose == ToShutDown else Quiet(c)
  }

  ghost predicate Inv(w: World) {
    && Distinct(w.names)
    && (forall n :: n in w.names <==> n in w.comps)
    && (forall n :: n in w.comps ==> ComponentInv(w.comps[n], w.started))
    && PhaseOk(w)
  }

  // ----- every step keeps it -----

  /** The event leaves the coroutines that work on the component alone, and does not
      make a flagged component forgotten. */
  ghost predicate Calm(c: Component, d: Component) {
    && d.wait == c.wait && d.stableSince == c.stableSince
    && ((Live(c.tasks) ==> c.needsCleanup) ==> (Live(d.tasks) ==> d.needsCleanup))
  }

  lemma SetKeepsComponents(w: World, n: string, d: Component)
    requires forall m :: m in w.comps ==> ComponentInv(w.comps[m], w.started)
    requires n in w.comps && ComponentInv(d, w.started)
    ensures forall m :: m in Set(w, n, d).comps ==> ComponentInv(Set(w, n, d).comps[m], w.started)
  {
  }

  lemma CalmPhase(w: World, n: string, d: Component)
    requires PhaseOk(w) && n in w.comps && Calm(w.comps[n], d)
    ensures PhaseOk(Set(w, n, d))
  {
    assert Quiet(w.comps[n]) ==> Quiet(d);
  }

  lemma SetCalm(w: World, n: string, d: Component)
    requires Inv(w) && n in w.comps && ComponentInv(d, w.started) && Calm(w.comps[n], d)
    ensures Inv(Set(w, n, d))
  {
    SetKeepsComponents(w, n, d);
    CalmPhase(w, n, d);
  }

  lemma BrokenComponent(w: World, n: string)
    requires n in w.comps && !ComponentInv(w.comps[n], w.started)
    ensures !Inv(w)
  {
  }

  lemma CalledBackStep(w: World, n: string, id: nat)
    requires Inv(w) && Enabled(w, CalledBack(n, id))
    ensures Inv(Next(w, CalledBack(n, id))) <==> Prompt(w, CalledBack(n, id))
  {
    var c, d := w.comps[n], CallBack(w.comps[n], id, w.started);
    CallBackAnyInv(c, id, w.started);
    if ComponentInv(d, w.started) {
      SetCalm(w, n, d);
    } else {
      BrokenComponent(Set(w, n, d), n);
    }
  }

  lemma EventStep(w: World, s: Step)
    requires Inv(w) && Enabled(w, s)
    requires s.Completed? || s.LateBegins? || s.LateResumed? || s.LateTimedOut?
    ensures Inv(Next(w, s))
  {
    var c := w.comps[s.name];
    match s
    case Completed(n, id, outcome) =>
      assert id + 1 == |c.tasks|;
      CompleteInv(c, outcome, w.started);
      SetCalm(w, n, Complete(c, id, outcome));
    case LateBegins(n) =>
      RunLateInv(c, w.started);
      SetCalm(w, n, RunLate(c));
    case LateResumed(n) =>
      ResumeLateInv(c, w.started);
      SetCalm(w, n, ResumeLate(c));
    case LateTimedOut(n) =>
      TimeOutLateInv(c, w.started);
      SetCalm(w, n, TimeOutLate(c));
  }

  /** A coroutine goes on working on the component it was suspended on. */
  lemma WorkingPhase(w: World, n: string, d: Component)
    requires PhaseOk(w) && !w.phase.Cancelling? && n in w.comps && w.comps[n].wait.Some?
    requires w.comps[n].wait.value.purpose != ToShutDown ==> w.started
    requires w.comps[n].wait.value.purpose == ToShutDown ==> Quiet(d)
    ensures PhaseOk(Set(w, n, d))
  {
    assert !Quiet(w.comps[n]);
  }

  lemma ResumedStep(w: World, s: Step)
    requires Inv(w) && Enabled(w, s) && (s.Resumed? || s.TimedOut?)
    ensures Inv(Next(w, s))
  {
    var c := w.comps[s.name];
    match s
    case Resumed(n, i) =>
      ResumeInv(c, i, w.started);
      SetKeepsComponents(w, n, Resume(c, i));
      WorkingPhase(w, n, Resume(c, i));
    case TimedOut(n, i) =>
      TimeOutInv(c, i, w.started);
      SetKeepsComponents(w, n, TimeOut(c, i));
      WorkingPhase(w, n, TimeOut(c, i));
  }

  lemma CancelWaitPhase(w: World, n: string)
    requires PhaseOk(w) && Enabled(w, WaitCancelled(n))
    requires forall m :: m in w.comps && !w.started && w.comps[m].wait.None? && Live(w.comps[m].tasks) ==>
                           w.comps[m].needsCleanup
    ensures PhaseOk(Next(w, WaitCancelled(n)))
  {
    if w.phase.Stopping? && !w.started {
      var todo, busy := w.phase.todo, w.phase.busy;
      forall m | m in w.comps && m != n
        ensures Quiet(w.comps[m])
      {
        assert Waiting(todo, busy, m) ==> w.comps[m].wait.None?;
      }
    }
  }

  lemma WaitCancelledStep(w: World, n: string)
    requires Inv(w) && Enabled(w, WaitCancelled(n))
    ensures Inv(Next(w, WaitCancelled(n)))
  {
    CancelWaitInv(w.comps[n], w.started);
    SetKeepsComponents(w, n, CancelWait(w.comps[n]));
    CancelWaitPhase(w, n);
  }

  lemma StartNextPhase(w: World, i: Input, d: Component)
    requires PhaseOk(w) && Enabled(w, StartNext(i))
    ensures PhaseOk(Set(w, w.phase.todo[0], d).(phase := Starting(w.phase.todo, true)))
  {
  }

  /** Turning to the first component of the list and bringing it to `d`. */
  lemma TurnTo(w: World, d: Component, u: World)
    requires Inv(w) && (w.phase.Starting? || w.phase.Stopping?)
    requires w.phase.todo != [] && w.phase.todo[0] in w.comps
    requires u.comps == w.comps[w.phase.todo[0] := d] && u.names == w.names && u.started == w.started && PhaseOk(u)
    ensures Inv(u) <==> ComponentInv(d, w.started)
  {
    if ComponentInv(d, w.started) {
      SetKeepsComponents(w, w.phase.todo[0], d);
    } else {
      BrokenComponent(u, w.phase.todo[0]);
    }
  }

  lemma StartNextStep(w: World, i: Input)
    requires Inv(w) && Enabled(w, StartNext(i))
    ensures Inv(Next(w, StartNext(i))) <==> Prompt(w, StartNext(i))
  {
    var n := w.phase.todo[0];
    var d := TryStart(w.comps[n], i);
    assert Waiting(w.phase.todo, false, n);
    TryStartInv(w.comps[n], i, w.started);
    StartNextPhase(w, i, d);
    TurnTo(w, d, Set(w, n, d).(phase := Starting(w.phase.todo, true)));
  }

  lemma StopNextPhase(w: World, d: Component)
    requires PhaseOk(w) && Enabled(w, StopNext) && ShuttingDown(d) && (!w.started ==> d.stableSince.None?)
    ensures PhaseOk(Set(w, w.phase.todo[0], d).(phase := Stopping(w.phase.todo, true)))
  {
  }

  lemma ShutDownShutting(c: Component, started: bool)
    requires ComponentInv(c, started) && c.wait.None?
    ensures ShuttingDown(ShutDown(c)) && (c.stableSince.None? ==> ShutDown(c).stableSince.None?)
  {
    ShutDownInv(c, started);
  }

  lemma StopNextStep(w: World)
    requires Inv(w) && Enabled(w, StopNext)
    ensures Inv(Next(w, StopNext)) <==> Prompt(w, StopNext)
  {
    var n := w.phase.todo[0];
    var d := ShutDown(w.comps[n]);
    assert Waiting(w.phase.todo, false, n);
    ShutDownInv(w.comps[n], w.started);
    ShutDownShutting(w.comps[n], w.started);
    StopNextPhase(w, d);
    TurnTo(w, d, Set(w, n, d).(phase := Stopping(w.phase.todo, true)));
  }

  lemma AdvanceStep(w: World, s: Step)
    requires Inv(w) && Enabled(w, s) && (s.StartAdvance? || s.StopAdvance?)
    ensures Inv(Next(w, s))
  {
    var todo := w.phase.todo;
    assert todo == [todo[0]] + todo[1..];
    forall n
      ensures Waiting(todo[1..], false, n) <==> Waiting(todo, true, n)
    {
    }
  }

  lemma {:induction false} ReverseProperties(s: seq<string>)
    requires Distinct(s)
    ensures Distinct(Reverse(s)) && (forall n :: n in Reverse(s) <==> n in s)
  {
    if s != [] {
      ReverseProperties(s[1..]);
      assert s == [s[0]] + s[1..];
      var r := Reverse(s[1..]);
      forall i | 0 <= i < |r|
        ensures r[i] != s[0]
      {
        assert r[i] in s[1..];
      }
    }
  }

  lemma StopBeginPhase(w: World)
    requires PhaseOk(w) && Distinct(w.names) && (forall n :: n in w.names <==> n in w.comps)
    requires (w.phase.Cancelling? && NoWaits(w)) || w.phase.Down?
    ensures PhaseOk(w.(phase := Stopping(Reverse(w.names), false)))
  {
    ReverseProperties(w.names);
  }

  lemma StopDonePhase(w: World)
    requires PhaseOk(w) && Enabled(w, StopDone)
    ensures PhaseOk(Next(w, StopDone))
  {
    assert forall n :: n in w.comps ==> Quiet(w.comps[n]);
  }

  lemma PhaseStep(w: World, s: Step)
    requires Inv(w) && Enabled(w, s)
    requires s.StartCall? || s.StartDone? || s.StopCall? || s.StopBegin? || s.StopDone? || s.StopAbort?
    ensures Inv(Next(w, s))
  {
    if s.StopDone? {
      StopDonePhase(w);
    } else if s.StopBegin? || (s.StopCall? && w.phase.Down?) {
      StopBeginPhase(w);
    }
  }

  lemma ConfigureStep(w: World, specs: seq<(string, Spec)>)
    requires Inv(w) && Enabled(w, Configure(specs))
    ensures Inv(Next(w, Configure(specs)))
  {
  }

  lemma MaintainStep(w: World, n: string, i: Input)
    requires Inv(w) && Enabled(w, MaintainOne(n, i))
    ensures Inv(Next(w, MaintainOne(n, i))) <==> Prompt(w, MaintainOne(n, i))
  {
    MaintainInv(w.comps[n], w.stableAfter, w.phase.Cancelling?, i, w.started);
  }

  /** A step keeps the invariant exactly when it is prompt. */
  lemma StepKeepsInv(w: World, s: Step)
    requires Inv(w) && Enabled(w, s)
    ensures Inv(Next(w, s)) <==> Prompt(w, s)
  {
    match s
    case Configure(specs) => ConfigureStep(w, specs);
    case StartNext(i) => StartNextStep(w, i);
    case StopNext => StopNextStep(w);
    case MaintainOne(n, i) => MaintainStep(w, n, i);
    case StartAdvance => AdvanceStep(w, s);
    case StopAdvance => AdvanceStep(w, s);
    case Completed(_, _, _) => EventStep(w, s);
    case CalledBack(n, id) => CalledBackStep(w, n, id);
    case LateBegins(_) => EventStep(w, s);
    case LateResumed(_) => EventStep(w, s);
    case LateTimedOut(_) => EventStep(w, s);
    case Resumed(_, _) => ResumedStep(w, s);
    case TimedOut(_, _) => ResumedStep(w, s);
    case WaitCancelled(n) => WaitCancelledStep(w, n);
    case _ => PhaseStep(w, s);
  }

  // ----- whole runs -----

  ghost predicate IsRun(w: World, steps: seq<Step>)
    decreases |steps|
  {
    steps != [] ==> Enabled(w, steps[0]) && IsRun(Next(w, steps[0]), steps[1..])
  }

  ghost predicate IsPromptRun(w: World, steps: seq<Step>)
    decreases |steps|
  {
    steps != [] ==> Enabled(w, steps[0]) && Prompt(w, steps[0]) && IsPromptRun(Next(w, steps[0]), steps[1..])
  }

  ghost function After(w: World, steps: seq<Step>): World
    requires IsRun(w, steps)
    decreases |steps|
  {
    if steps == [] then w else After(Next(w, steps[0]), steps[1..])
  }

  lemma {:induction false} RunKeepsInv(w: World, steps: seq<Step>)
    requires Inv(w) && IsPromptRun(w, steps)
    ensures IsRun(w, steps) && Inv(After(w, steps))
    decreases |steps|
  {
    if steps != [] {
      StepKeepsInv(w, steps[0]);
      RunKeepsInv(Next(w, steps[0]), steps[1..]);
    }
  }

  lemma InitialInv(stableAfter: real)
    ensures Inv(InitialWorld(stableAfter))
  {
  }

  // ----- what the invariant means -----

  /** Between two launches of the start callback some stop callback completed successfully. */
  lemma {:induction false} SeparatedByStop(ts: seq<Task>, i: nat, j: nat)
    requires Separated(ts) && i < j < |ts| && ts[i].kind == Start && ts[j].kind == Start
    ensures exists k :: i < k < j && ts[k].StoppedWell()
    decreases |ts|
  {
    if j + 1 == |ts| {
      NotLive(Init(ts), i);
    } else {
      SeparatedByStop(Init(ts), i, j);
      var k :| i < k < j && Init(ts)[k].StoppedWell();
      assert ts[k].StoppedWell();
    }
  }

  lemma {:induction false} NotLive(ts: seq<Task>, i: nat)
    requires !Live(ts) && i < |ts| && ts[i].kind == Start
    ensures exists k :: i < k < |ts| && ts[k].StoppedWell()
    decreases |ts|
  {
    if Last(ts).StoppedWell() {
      assert ts[|ts| - 1].StoppedWell();
    } else {
      NotLive(Init(ts), i);
      var k :| i < k < |Init(ts)| && Init(ts)[k].StoppedWell();
      assert ts[k].StoppedWell();
    }
  }

  /** The `i`-th callback is a start, and no stop has completed successfully since. */
  ghost predicate NoStopAfter(ts: seq<Task>, i: nat)
    requires i < |ts|
  {
    ts[i].kind == Start && forall k :: i < k < |ts| ==> !ts[k].StoppedWell()
  }

  /** `Live` says what it should: some start has no successful stop after it. */
  lemma {:induction false} LiveMeaning(ts: seq<Task>)
    ensures Live(ts) <==> exists i :: 0 <= i < |ts| && NoStopAfter(ts, i)
  {
    if ts != [] {
      LiveMeaning(Init(ts));
      if Live(ts) {
        if Last(ts).kind == Start {
          assert NoStopAfter(ts, |ts| - 1);
        } else {
          var i :| 0 <= i < |Init(ts)| && NoStopAfter(Init(ts), i);
          assert forall k :: i < k < |ts| - 1 ==> ts[k] == Init(ts)[k];
          assert NoStopAfter(ts, i);
        }
      }
      if i :| 0 <= i < |ts| && NoStopAfter(ts, i) {
        if i + 1 < |ts| {
          assert NoStopAfter(Init(ts), i);
        }
      }
    }
  }

  /** In every prompt run each component has at most one callback in flight, and no start is
      launched before some stop has succeeded since the previous one. */
  lemma LifecycleSafety(stableAfter: real, steps: seq<Step>, n: string)
    requires IsPromptRun(InitialWorld(stableAfter), steps)
    ensures IsRun(InitialWorld(stableAfter), steps)
    ensures n in After(InitialWorld(stableAfter), steps).comps ==>
              var ts := After(InitialWorld(stableAfter), steps).comps[n].tasks;
              && (forall i, j :: 0 <= i < j < |ts| ==> !(ts[i].Running() && ts[j].Running()))
              && (forall i, j :: 0 <= i < j < |ts| && ts[i].kind == Start && ts[j].kind == Start ==>
                    exists k :: i < k < j && ts[k].StoppedWell())
  {
    InitialInv(stableAfter);
    RunKeepsInv(InitialWorld(stableAfter), steps);
    var w := After(InitialWorld(stableAfter), steps);
    if n in w.comps {
      var ts := w.comps[n].tasks;
      forall i, j | 0 <= i < j < |ts| && ts[i].kind == Start && ts[j].kind == Start
        ensures exists k :: i < k < j && ts[k].StoppedWell()
      {
        SeparatedByStop(ts, i, j);
      }
    }
  }

  /** Once stop has returned, a component that might still be live is flagged, and configure
      does not accept to discard it. */
  lemma NeverForgotten(stableAfter: real, steps: seq<Step>, n: string)
    requires IsPromptRun(InitialWorld(stableAfter), steps)
    ensures IsRun(InitialWorld(stableAfter), steps)
    ensures var w := After(InitialWorld(stableAfter), steps);
            n in w.comps && w.phase.Down? && Live(w.comps[n].tasks) ==> w.comps[n].needsCleanup && !MayDiscard(w)
  {
    InitialInv(stableAfter);
    RunKeepsInv(InitialWorld(stableAfter), steps);
  }
}
